/**
 * The save direction of the product form, `getProductInputValues`
 * (form-utils.ts:340-448): from the form values to the write payload.
 *
 * The payload copies the form fields the function does not take apart,
 * forces `is_digital: true` and the literal `product_type: 'simple'`, turns
 * category rows into id strings and tags into ids, and always carries a
 * `variation_options` object with `upsert` and `delete`. For a variable
 * product (decided on the form's `product_type.value`, although the
 * payload says 'simple') the options are upserted and the original options
 * missing from the form are deleted. The price bounds are merged last.
 *
 * An `undefined` array element (a tag or option without id) is written as
 * `null`, the way JSON serialisation sends it.
 */
module FormSave {
  import opened Wrappers
  import opened Js
  import FormCategories
  import FormEnvelopes
  import FormPricing
  import FormVariations
  import FormLoad
  import Seqs

  /** The form fields the function takes apart (lines 345-357); all others
      are copied into the payload. */
  const DestructuredKeys: set<string> :=
    {"product_type", "type", "quantity", "image", "is_digital", "categories", "tags", "digital_file_input",
     "variation_options", "variations", "in_flash_sale"}

  /** The payload keys written over the copied fields. */
  const PayloadKeys: set<string> :=
    {"is_digital", "in_flash_sale", "type_id", "product_type", "categories", "tags", "image", "gallery",
     "quantity", "digital_file", "variations", "variation_options", "min_price", "max_price"}

  /** How an array element that may be `undefined` is sent. */
  function Elem(v: Option<Json>): Json
  {
    if v.Some? then v.value else JNull
  }

  /** `String(row?.categories_id ?? row?.id ?? '')`. */
  function CategoryIdString(row: Json): string
  {
    StrOf(Coalesce([Get(Some(row), "categories_id"), Get(Some(row), "id"), Some(JStr(""))]))
  }

  /** The id strings of the rows with the empty ones filtered out
      (`.filter(Boolean)`). */
  function CategoryStrings(rows: seq<Json>): (r: seq<Json>)
    ensures |r| <= |rows|
    ensures forall i :: 0 <= i < |r| ==> r[i].JStr? && r[i].s != ""
  {
    if |rows| == 0 then []
    else
      var s := CategoryIdString(rows[0]);
      (if s != "" then [JStr(s)] else []) + CategoryStrings(rows[1..])
  }

  /** `(categories ?? []).map(...).filter(Boolean)`. */
  function SaveCategories(v: Option<Json>): Result<Json>
  {
    if Nullish(v) then Ok(JArr([]))
    else if !v.value.JArr? then TypeError
    else Ok(JArr(CategoryStrings(v.value.items)))
  }

  /** `xs.map((x) => x?.id)`, for the tags and for the original options;
      an `undefined` id is sent as `null`. */
  function Ids(xs: seq<Json>): (r: seq<Json>)
    ensures |r| == |xs|
    ensures forall i :: 0 <= i < |xs| ==> r[i] == Elem(Get(Some(xs[i]), "id"))
  {
    if |xs| == 0 then [] else [Elem(Get(Some(xs[0]), "id"))] + Ids(xs[1..])
  }

  /** `(tags ?? []).map((tag) => tag?.id)`. */
  function SaveTags(v: Option<Json>): Result<Json>
  {
    if Nullish(v) then Ok(JArr([]))
    else if !v.value.JArr? then TypeError
    else Ok(JArr(Ids(v.value.items)))
  }

  function OmitEach(xs: seq<Json>): (r: seq<Json>)
    ensures |r| == |xs|
    ensures forall i :: 0 <= i < |xs| ==> r[i] == OmitTypename(xs[i])
  {
    if |xs| == 0 then [] else [OmitTypename(xs[0])] + OmitEach(xs[1..])
  }

  /** `(values.gallery ?? []).map((gi) => omitTypename(gi))`. */
  function SaveGallery(v: Option<Json>): Result<Json>
  {
    if Nullish(v) then Ok(JArr([]))
    else if !v.value.JArr? then TypeError
    else Ok(JArr(OmitEach(v.value.items)))
  }

  /** The product's digital file (lines 374-380): the id of the stored file,
      spread again when the form is not a new translation. */
  function DigitalFile(initialValues: Option<Json>, input: Option<Json>, isNewTranslation: bool): Json
  {
    var id := Get(Get(initialValues, "digital_file"), "id");
    JObj(Record([("id", id), ("attachment_id", Get(input, "id")), ("url", Get(input, "original")),
                 ("file_name", Get(input, "file_name"))] +
                (if !isNewTranslation then [("id", id)] else [])))
  }

  /** The original options (lines 384-389 and 431). */
  function InitialOptions(initialValues: Option<Json>): seq<Json>
  {
    FormEnvelopes.EnsureVariationOptionsArray(Get(initialValues, "variation_options"))
  }

  /** `{ upsert, delete }`. */
  function UpsertDelete(upsert: seq<Json>, delete: seq<Json>): Json
  {
    JObj(map["upsert" := JArr(upsert), "delete" := JArr(delete)])
  }

  /* ---------------------------------------------------------------- */
  /* The variable-product branch (lines 394-442)                      */
  /* ---------------------------------------------------------------- */

  /** The edited options as the form's `Variation[]` type declares them. */
  predicate TypedOptions(values: map<string, Json>)
  {
    var v := Field(values, "variation_options");
    Nullish(v) || (v.value.JArr? && FormPricing.PricedOptions(v.value.items))
  }

  /** `variation_options ?? []`. */
  function EditedOptions(values: map<string, Json>): (r: seq<Json>)
    requires TypedOptions(values)
    ensures FormPricing.PricedOptions(r)
  {
    var v := Field(values, "variation_options");
    if Nullish(v) then [] else v.value.items
  }

  /** `product_type?.value === 'variable'`. */
  predicate IsVariableForm(values: map<string, Json>)
  {
    StrictEq(Get(Field(values, "product_type"), "value"), Some(JStr("variable")))
  }

  function AttributeValueIds(xs: seq<Json>): (r: Result<seq<Json>>)
    ensures r.TypeError? <==> JNull in xs
    ensures r.Ok? ==> |r.value| == |xs|
  {
    if |xs| == 0 then Ok([])
    else if xs[0] == JNull then TypeError
    else
      var rest := AttributeValueIds(xs[1..]);
      assert xs == [xs[0]] + xs[1..];
      if rest.TypeError? then TypeError
      else Ok([JObj(Record([("attribute_value_id", Get(Some(xs[0]), "id"))]))] + rest.value)
  }

  /** `flatMap(({ value }) => (value ?? []).map(({ id }) => ...))`. */
  function VariationValues(xs: seq<Json>): Result<seq<Json>>
  {
    if |xs| == 0 then Ok([])
    else if xs[0] == JNull then TypeError
    else
      var vals := Get(Some(xs[0]), "value");
      var first := if Nullish(vals) then Ok([]) else if !vals.value.JArr? then TypeError else AttributeValueIds(vals.value.items);
      var rest := VariationValues(xs[1..]);
      if first.TypeError? || rest.TypeError? then TypeError else Ok(first.value + rest.value)
  }

  function SaveVariations(v: Option<Json>): Result<Json>
  {
    if Nullish(v) then Ok(JArr([]))
    else if !v.value.JArr? then TypeError
    else
      var r := VariationValues(v.value.items);
      if r.TypeError? then TypeError else Ok(JArr(r.value))
  }

  /** `.map(({ name, value }) => ({ name, value }))` over the decoded
      options. */
  function NameValues(xs: seq<Json>): (r: Result<seq<Json>>)
    ensures r.TypeError? <==> JNull in xs
    ensures r.Ok? ==> |r.value| == |xs|
  {
    if |xs| == 0 then Ok([])
    else if xs[0] == JNull then TypeError
    else
      var rest := NameValues(xs[1..]);
      assert xs == [xs[0]] + xs[1..];
      if rest.TypeError? then TypeError
      else Ok([JObj(Record([("name", Get(Some(xs[0]), "name")), ("value", Get(Some(xs[0]), "value"))]))] + rest.value)
  }

  function OptionPairs(v: Json): Result<seq<Json>>
  {
    if v.JArr? then NameValues(v.items) else TypeError
  }

  /** The fields an upserted option drops before copying the rest. */
  const UpsertDropped: set<string> := {"options", "id", "digital_files", "image", "digital_file_input"}

  /** One upserted option (lines 404-429). */
  function UpsertEntry(o: map<string, Json>, parse: string -> Option<Json>): Result<Json>
  {
    var id := Field(o, "id");
    var rest := o - UpsertDropped;
    var m0: map<string, Json> := if id.Some? && id.value != JStr("") then map["id" := id.value] else map[];
    var m1 := m0 + (rest - {TYPENAME});
    var image := Field(o, "image");
    var m2 := if !IsEmptyValue(image) then m1["image" := OmitTypename(image.value)] else m1;
    var input := Field(o, "digital_file_input");
    var m3 :=
      if Truthy(Field(rest, "is_digital")) then
        m2["digital_file" := JObj(Record([("id", Get(Field(o, "digital_files"), "id")), ("attachment_id", Get(input, "id")),
                                          ("url", Get(input, "original")), ("file_name", Get(input, "file_name"))]))]
      else m2;
    var pairs := OptionPairs(FormEnvelopes.ProcessOptions(Or(Field(o, "options"), JArr([])), parse));
    if pairs.TypeError? then TypeError else Ok(JObj(m3["options" := JArr(pairs.value)]))
  }

  function Upserts(xs: seq<Json>, parse: string -> Option<Json>): (r: Result<seq<Json>>)
    requires FormPricing.PricedOptions(xs)
    ensures r.Ok? ==> |r.value| == |xs|
    ensures r.Ok? ==> forall i :: 0 <= i < |xs| ==> UpsertEntry(xs[i].fields, parse) == Ok(r.value[i])
  {
    if |xs| == 0 then Ok([])
    else
      var first := UpsertEntry(xs[0].fields, parse);
      var rest := Upserts(xs[1..], parse);
      assert forall i :: 1 <= i < |xs| ==> xs[i] == xs[1..][i - 1];
      if first.TypeError? || rest.TypeError? then TypeError else Ok([first.value] + rest.value)
  }

  /** Some edited option has an id strictly equal to `id`. */
  predicate Matched(edited: seq<Json>, id: Option<Json>)
  {
    exists j :: 0 <= j < |edited| && StrictEq(Get(Some(edited[j]), "id"), id)
  }

  /** The ids of the original options that no edited option matches;
      options without an id are dropped by the final `filter`. */
  function DeleteIds(initial: seq<Json>, edited: seq<Json>): seq<Json>
  {
    if |initial| == 0 then []
    else
      var id := Get(Some(initial[0]), "id");
      (if id.Some? && !Matched(edited, id) then [id.value] else []) + DeleteIds(initial[1..], edited)
  }

  /* ---------------------------------------------------------------- */
  /* The payload                                                      */
  /* ---------------------------------------------------------------- */

  /** The product's own fields of the payload (lines 359-373). */
  function ProductFields(values: map<string, Json>, categories: Json, tags: Json, gallery: Json): map<string, Json>
  {
    var m0 := (values - DestructuredKeys)["is_digital" := JBool(true)];
    var m1 := SetField(SetField(m0, "in_flash_sale", Field(values, "in_flash_sale")),
                       "type_id", Get(Field(values, "type"), "id"));
    var m2 := m1["product_type" := JStr("simple")]["categories" := categories]["tags" := tags];
    var m3 := SetField(m2, "image", OmitTypenameOf(Field(values, "image")))["gallery" := gallery];
    SetField(m3, "quantity", Field(values, "quantity"))
  }

  /** The payload before the variable-product branch and the price bounds
      (lines 359-390). */
  function BasePayload(values: map<string, Json>, initialValues: Option<Json>, isNewTranslation: bool,
                       categories: Json, tags: Json, gallery: Json): map<string, Json>
  {
    ProductFields(values, categories, tags, gallery)
      ["digital_file" := DigitalFile(initialValues, Field(values, "digital_file_input"), isNewTranslation)]
      ["variations" := JArr([])]
      ["variation_options" := UpsertDelete([], Ids(InitialOptions(initialValues)))]
  }

  /** The variable-product overlay (lines 394-442). */
  function VariableOverlay(m: map<string, Json>, edited: seq<Json>, initial: seq<Json>,
                           variations: Json, upserts: seq<Json>): map<string, Json>
    requires FormPricing.PricedOptions(edited)
  {
    SetField(m, "quantity", FormPricing.AsNum(FormPricing.CalculateQuantity(edited)))
      ["variations" := variations]
      ["variation_options" := UpsertDelete(upserts, DeleteIds(initial, edited))]
  }

  /** `...calculateMinMaxPrice(variation_options ?? [])` (line 445). */
  function PriceOverlay(m: map<string, Json>, edited: seq<Json>): map<string, Json>
    requires FormPricing.PricedOptions(edited)
  {
    var mm := FormPricing.CalculateMinMaxPrice(edited);
    SetField(SetField(m, "min_price", mm.minPrice), "max_price", mm.maxPrice)
  }

  /** Whether one of the conversions `getProductInputValues` makes throws. */
  predicate SaveThrows(values: map<string, Json>, parse: string -> Option<Json>)
    requires TypedOptions(values)
  {
    SaveCategories(Field(values, "categories")).TypeError? || SaveTags(Field(values, "tags")).TypeError? ||
    SaveGallery(Field(values, "gallery")).TypeError? ||
    (IsVariableForm(values) &&
      (SaveVariations(Field(values, "variations")).TypeError? || Upserts(EditedOptions(values), parse).TypeError?))
  }

  /** The payload before the price bounds are laid over it (lines
      359-442). */
  function Unpriced(values: map<string, Json>, initialValues: Option<Json>, isNewTranslation: bool,
                    parse: string -> Option<Json>): (r: Result<map<string, Json>>)
    requires TypedOptions(values)
    ensures r.TypeError? <==> SaveThrows(values, parse)
  {
    var categories := SaveCategories(Field(values, "categories"));
    var tags := SaveTags(Field(values, "tags"));
    var gallery := SaveGallery(Field(values, "gallery"));
    if categories.TypeError? || tags.TypeError? || gallery.TypeError? then TypeError
    else
      var base := BasePayload(values, initialValues, isNewTranslation, categories.value, tags.value, gallery.value);
      if IsVariableForm(values) then
        var variations := SaveVariations(Field(values, "variations"));
        var upserts := Upserts(EditedOptions(values), parse);
        if variations.TypeError? || upserts.TypeError? then TypeError
        else Ok(VariableOverlay(base, EditedOptions(values), InitialOptions(initialValues), variations.value, upserts.value))
      else Ok(base)
  }

  /** `getProductInputValues(values, initialValues, isNewTranslation)`;
      `parse` stands for `JSON.parse`. */
  function GetProductInputValues(values: map<string, Json>, initialValues: Option<Json>, isNewTranslation: bool,
                                 parse: string -> Option<Json>): (r: Result<map<string, Json>>)
    requires TypedOptions(values)
    ensures r.TypeError? <==>
              SaveCategories(Field(values, "categories")).TypeError? || SaveTags(Field(values, "tags")).TypeError? ||
              SaveGallery(Field(values, "gallery")).TypeError? ||
              (IsVariableForm(values) &&
                (SaveVariations(Field(values, "variations")).TypeError? || Upserts(EditedOptions(values), parse).TypeError?))
  {
    var inner := Unpriced(values, initialValues, isNewTranslation, parse);
    if inner.TypeError? then TypeError else Ok(PriceOverlay(inner.value, EditedOptions(values)))
  }

  /* ---------------------------------------------------------------- */
  /* Properties                                                       */
  /* ---------------------------------------------------------------- */

  /** A category string is sent exactly when it is non-empty and some row
      carries it. */
  lemma {:induction false} CategoryStringsKeepNonEmpty(rows: seq<Json>, s: string)
    ensures JStr(s) in CategoryStrings(rows) <==> s != "" && exists i :: 0 <= i < |rows| && CategoryIdString(rows[i]) == s
  {
    if |rows| > 0 {
      CategoryStringsKeepNonEmpty(rows[1..], s);
      assert forall i :: 1 <= i < |rows| ==> rows[i] == rows[1..][i - 1];
      if s != "" && CategoryIdString(rows[0]) != s && exists i :: 0 <= i < |rows| && CategoryIdString(rows[i]) == s {
        var i :| 0 <= i < |rows| && CategoryIdString(rows[i]) == s;
        assert CategoryIdString(rows[1..][i - 1]) == s;
      }
    }
  }

  /** The rows the load direction stores come back, in order, as the decimal
      strings of their category ids. */
  lemma {:induction false} SavedCategoriesOfLoadedRows(rows: seq<FormCategories.CategoryRow>)
    requires FormCategories.Canonical(rows)
    ensures CategoryStrings(FormCategories.EncodeRows(rows)) ==
            seq(|rows|, k requires 0 <= k < |rows| => JStr(NatToString(rows[k].categoriesId.i)))
  {
    if |rows| > 0 {
      var enc := FormCategories.EncodeRows(rows);
      var want := seq(|rows|, k requires 0 <= k < |rows| => JStr(NatToString(rows[k].categoriesId.i)));
      assert FormCategories.Canonical(rows[1..]) by {
        assert forall k :: 1 <= k < |rows| ==> rows[k] == rows[1..][k - 1];
      }
      SavedCategoriesOfLoadedRows(rows[1..]);
      assert enc[1..] == FormCategories.EncodeRows(rows[1..]);
      LoadedRowIdString(rows[0]);
      assert CategoryStrings(enc) == [want[0]] + CategoryStrings(enc[1..]);
      assert want == [want[0]] + want[1..];
    }
  }

  /** A canonical row reads back as the decimal text of its category id. */
  lemma LoadedRowIdString(row: FormCategories.CategoryRow)
    requires FormCategories.Positive(row.categoriesId)
    ensures CategoryIdString(FormCategories.EncodeRow(row)) == NatToString(row.categoriesId.i) != ""
  {
    var c := FormCategories.EncodeRow(row);
    assert Get(Some(c), "categories_id") == Some(JNum(row.categoriesId.i));
  }

  /** The stored file id is in the digital file whether or not the form is a
      new translation: spreading it again changes nothing. */
  lemma DigitalFileIdIgnoresTranslation(initialValues: Option<Json>, input: Option<Json>)
    ensures DigitalFile(initialValues, input, true) == DigitalFile(initialValues, input, false)
    ensures Get(Some(DigitalFile(initialValues, input, true)), "id") == Get(Get(initialValues, "digital_file"), "id")
  {
    var id := Get(Get(initialValues, "digital_file"), "id");
    var kvs := [("id", id), ("attachment_id", Get(input, "id")), ("url", Get(input, "original")),
                ("file_name", Get(input, "file_name"))];
    var r := Record(kvs);
    assert kvs + [] == kvs;
    assert (kvs + [("id", id)])[..4] == kvs;
    assert Record(kvs + [("id", id)]) == SetField(r, "id", id);
    assert kvs[..1] == [("id", id)] && kvs[..1][..0] == [];
    assert kvs[..2][..1] == kvs[..1] && kvs[..3][..2] == kvs[..2] && kvs[..4] == kvs && kvs[..3] == kvs[..4][..3];
    assert Field(Record(kvs[..1]), "id") == id;
    assert Field(Record(kvs[..2]), "id") == id;
    assert Field(Record(kvs[..3]), "id") == id;
    assert Field(r, "id") == id;
    if id.Some? {
      assert r["id" := id.value] == r;
    } else {
      assert r - {"id"} == r;
    }
  }

  /** `delete` lists exactly the ids of original options that no edited
      option carries (under `===`), in their original order. */
  lemma {:induction false} DeleteIdsAreTheUnmatched(initial: seq<Json>, edited: seq<Json>, d: Json)
    ensures d in DeleteIds(initial, edited) <==>
              !Matched(edited, Some(d)) && exists i :: 0 <= i < |initial| && Get(Some(initial[i]), "id") == Some(d)
    ensures |DeleteIds(initial, edited)| <= |initial|
  {
    if |initial| > 0 {
      DeleteIdsAreTheUnmatched(initial[1..], edited, d);
      assert forall i :: 1 <= i < |initial| ==> initial[i] == initial[1..][i - 1];
      if !Matched(edited, Some(d)) && Get(Some(initial[0]), "id") != Some(d) &&
         exists i :: 0 <= i < |initial| && Get(Some(initial[i]), "id") == Some(d) {
        var i :| 0 <= i < |initial| && Get(Some(initial[i]), "id") == Some(d);
        assert Get(Some(initial[1..][i - 1]), "id") == Some(d);
      }
    }
  }

  /** Without edited options every original id is deleted. */
  lemma {:induction false} NothingEditedDeletesAll(initial: seq<Json>)
    ensures DeleteIds(initial, []) == DefinedIds(initial)
  {
    if |initial| > 0 {
      NothingEditedDeletesAll(initial[1..]);
    }
  }

  /** The ids the original options carry, in order. */
  function DefinedIds(xs: seq<Json>): seq<Json>
  {
    if |xs| == 0 then []
    else
      var id := Get(Some(xs[0]), "id");
      (if id.Some? then [id.value] else []) + DefinedIds(xs[1..])
  }

  /** An upserted option carries an `id` exactly when the form's option has
      one that is not the empty string, always carries `options`, never a
      `__typename`, and keeps every other field of the option. */
  lemma UpsertEntryShape(o: map<string, Json>, parse: string -> Option<Json>)
    requires UpsertEntry(o, parse).Ok?
    ensures var r := UpsertEntry(o, parse).value;
      && r.JObj?
      && ("id" in r.fields <==> Field(o, "id").Some? && Field(o, "id").value != JStr(""))
      && ("id" in r.fields ==> Field(r.fields, "id") == Field(o, "id"))
      && "options" in r.fields && r.fields["options"].JArr?
      && TYPENAME !in r.fields
      && forall k :: k !in UpsertDropped && k != TYPENAME && k !in {"image", "digital_file"} ==>
           Field(r.fields, k) == Field(o, k)
  {
  }

  /** The fields the base payload writes. */
  lemma BasePayloadWrites(values: map<string, Json>, initialValues: Option<Json>, isNewTranslation: bool,
                          categories: Json, tags: Json, gallery: Json)
    ensures var m := BasePayload(values, initialValues, isNewTranslation, categories, tags, gallery);
      && Field(m, "is_digital") == Some(JBool(true))
      && Field(m, "product_type") == Some(JStr("simple"))
      && Field(m, "categories") == Some(categories)
      && Field(m, "tags") == Some(tags)
      && Field(m, "gallery") == Some(gallery)
      && Field(m, "quantity") == Field(values, "quantity")
      && Field(m, "variations") == Some(JArr([]))
      && Field(m, "variation_options") == Some(UpsertDelete([], Ids(InitialOptions(initialValues))))
      && Field(m, "digital_file") == Some(DigitalFile(initialValues, Field(values, "digital_file_input"), isNewTranslation))
  {
    ProductFieldsWrites(values, categories, tags, gallery);
  }

  lemma ProductFieldsWrites(values: map<string, Json>, categories: Json, tags: Json, gallery: Json)
    ensures var m := ProductFields(values, categories, tags, gallery);
      && Field(m, "is_digital") == Some(JBool(true))
      && Field(m, "product_type") == Some(JStr("simple"))
      && Field(m, "categories") == Some(categories)
      && Field(m, "tags") == Some(tags)
      && Field(m, "gallery") == Some(gallery)
      && Field(m, "quantity") == Field(values, "quantity")
  {
  }

  /** The form fields the base payload copies unchanged. */
  lemma BasePayloadCopies(values: map<string, Json>, initialValues: Option<Json>, isNewTranslation: bool,
                          categories: Json, tags: Json, gallery: Json, k: string)
    requires k !in DestructuredKeys && k !in PayloadKeys
    ensures Field(BasePayload(values, initialValues, isNewTranslation, categories, tags, gallery), k) == Field(values, k)
  {
  }

  /** The variable overlay writes the quantity, the variations and the
      options and nothing else. */
  lemma VariableOverlayFields(m: map<string, Json>, edited: seq<Json>, initial: seq<Json>, variations: Json, upserts: seq<Json>)
    requires FormPricing.PricedOptions(edited)
    ensures var r := VariableOverlay(m, edited, initial, variations, upserts);
      && Field(r, "quantity") == FormPricing.AsNum(FormPricing.CalculateQuantity(edited))
      && Field(r, "variations") == Some(variations)
      && Field(r, "variation_options") == Some(UpsertDelete(upserts, DeleteIds(initial, edited)))
      && forall k :: k !in {"quantity", "variations", "variation_options"} ==> Field(r, k) == Field(m, k)
  {
  }

  /** The price bounds are written over whatever the payload held. */
  lemma PriceOverlayFields(m: map<string, Json>, edited: seq<Json>)
    requires FormPricing.PricedOptions(edited)
    ensures var r := PriceOverlay(m, edited);
      && Field(r, "min_price") == FormPricing.CalculateMinMaxPrice(edited).minPrice
      && Field(r, "max_price") == FormPricing.CalculateMinMaxPrice(edited).maxPrice
      && forall k :: k !in {"min_price", "max_price"} ==> Field(r, k) == Field(m, k)
  {
  }

  /** The fields the payload holds before the price bounds: the base
      payload's for a simple product, the variable overlay's otherwise. */
  lemma UnpricedWrites(values: map<string, Json>, initialValues: Option<Json>, isNewTranslation: bool,
                       parse: string -> Option<Json>)
    requires TypedOptions(values)
    requires Unpriced(values, initialValues, isNewTranslation, parse).Ok?
    ensures var m := Unpriced(values, initialValues, isNewTranslation, parse).value;
      var edited := EditedOptions(values);
      && Field(m, "is_digital") == Some(JBool(true))
      && Field(m, "product_type") == Some(JStr("simple"))
      && (!IsVariableForm(values) ==>
            && Field(m, "variation_options") == Some(UpsertDelete([], Ids(InitialOptions(initialValues))))
            && Field(m, "variations") == Some(JArr([]))
            && Field(m, "quantity") == Field(values, "quantity"))
      && (IsVariableForm(values) ==>
            && Upserts(edited, parse).Ok?
            && SaveVariations(Field(values, "variations")).Ok?
            && Field(m, "variation_options") ==
                 Some(UpsertDelete(Upserts(edited, parse).value, DeleteIds(InitialOptions(initialValues), edited)))
            && Field(m, "quantity") == FormPricing.AsNum(FormPricing.CalculateQuantity(edited))
            && Field(m, "variations") == Some(SaveVariations(Field(values, "variations")).value))
  {
    var edited := EditedOptions(values);
    var cats, tags, gallery := SaveCategories(Field(values, "categories")).value, SaveTags(Field(values, "tags")).value,
                               SaveGallery(Field(values, "gallery")).value;
    var base := BasePayload(values, initialValues, isNewTranslation, cats, tags, gallery);
    BasePayloadWrites(values, initialValues, isNewTranslation, cats, tags, gallery);
    if IsVariableForm(values) {
      var variations, upserts := SaveVariations(Field(values, "variations")).value, Upserts(edited, parse).value;
      VariableOverlayFields(base, edited, InitialOptions(initialValues), variations, upserts);
    }
  }

  /** The form fields the payload copies before the price bounds. */
  lemma UnpricedCopies(values: map<string, Json>, initialValues: Option<Json>, isNewTranslation: bool,
                       parse: string -> Option<Json>, k: string)
    requires TypedOptions(values) && k !in DestructuredKeys && k !in PayloadKeys
    requires Unpriced(values, initialValues, isNewTranslation, parse).Ok?
    ensures Field(Unpriced(values, initialValues, isNewTranslation, parse).value, k) == Field(values, k)
  {
    var edited := EditedOptions(values);
    var cats, tags, gallery := SaveCategories(Field(values, "categories")).value, SaveTags(Field(values, "tags")).value,
                               SaveGallery(Field(values, "gallery")).value;
    var base := BasePayload(values, initialValues, isNewTranslation, cats, tags, gallery);
    BasePayloadCopies(values, initialValues, isNewTranslation, cats, tags, gallery, k);
    if IsVariableForm(values) {
      var variations, upserts := SaveVariations(Field(values, "variations")).value, Upserts(edited, parse).value;
      VariableOverlayFields(base, edited, InitialOptions(initialValues), variations, upserts);
    }
  }

  /** Every payload is digital, says 'simple', carries both `upsert` and
      `delete`, and ends with the price bounds of the edited options,
      whatever the form held under those keys. */
  lemma PayloadInvariants(values: map<string, Json>, initialValues: Option<Json>, isNewTranslation: bool,
                          parse: string -> Option<Json>)
    requires TypedOptions(values)
    requires GetProductInputValues(values, initialValues, isNewTranslation, parse).Ok?
    ensures var m := GetProductInputValues(values, initialValues, isNewTranslation, parse).value;
      var mm := FormPricing.CalculateMinMaxPrice(EditedOptions(values));
      && Field(m, "is_digital") == Some(JBool(true))
      && Field(m, "product_type") == Some(JStr("simple"))
      && (exists ups, dels :: Field(m, "variation_options") == Some(UpsertDelete(ups, dels)))
      && Field(m, "min_price") == mm.minPrice
      && Field(m, "max_price") == mm.maxPrice
  {
    var edited := EditedOptions(values);
    var inner := Unpriced(values, initialValues, isNewTranslation, parse).value;
    UnpricedWrites(values, initialValues, isNewTranslation, parse);
    PriceOverlayFields(inner, edited);
  }

  /** A product that is not variable sends no option changes beyond
      deleting every original option, no variations, and the form's own
      quantity. */
  lemma SimpleProductPayload(values: map<string, Json>, initialValues: Option<Json>, isNewTranslation: bool,
                             parse: string -> Option<Json>)
    requires TypedOptions(values) && !IsVariableForm(values)
    requires GetProductInputValues(values, initialValues, isNewTranslation, parse).Ok?
    ensures var m := GetProductInputValues(values, initialValues, isNewTranslation, parse).value;
      && Field(m, "variation_options") == Some(UpsertDelete([], Ids(InitialOptions(initialValues))))
      && Field(m, "variations") == Some(JArr([]))
      && Field(m, "quantity") == Field(values, "quantity")
  {
    var inner := Unpriced(values, initialValues, isNewTranslation, parse).value;
    UnpricedWrites(values, initialValues, isNewTranslation, parse);
    PriceOverlayFields(inner, EditedOptions(values));
  }

  /** A variable product upserts one entry per edited option, deletes the
      unmatched original ids, and sends the summed quantity and the
      attribute values. */
  lemma VariableProductPayload(values: map<string, Json>, initialValues: Option<Json>, isNewTranslation: bool,
                               parse: string -> Option<Json>)
    requires TypedOptions(values) && IsVariableForm(values)
    requires GetProductInputValues(values, initialValues, isNewTranslation, parse).Ok?
    ensures var m := GetProductInputValues(values, initialValues, isNewTranslation, parse).value;
      var edited := EditedOptions(values);
      && Upserts(edited, parse).Ok?
      && |Upserts(edited, parse).value| == |edited|
      && Field(m, "variation_options") ==
           Some(UpsertDelete(Upserts(edited, parse).value, DeleteIds(InitialOptions(initialValues), edited)))
      && Field(m, "quantity") == FormPricing.AsNum(FormPricing.CalculateQuantity(edited))
      && SaveVariations(Field(values, "variations")).Ok?
      && Field(m, "variations") == Some(SaveVariations(Field(values, "variations")).value)
  {
    var inner := Unpriced(values, initialValues, isNewTranslation, parse).value;
    UnpricedWrites(values, initialValues, isNewTranslation, parse);
    PriceOverlayFields(inner, EditedOptions(values));
  }

  /** Every form field the function does not take apart or write reaches
      the payload unchanged. */
  lemma OtherFieldsPassThrough(values: map<string, Json>, initialValues: Option<Json>, isNewTranslation: bool,
                               parse: string -> Option<Json>, k: string)
    requires TypedOptions(values) && k !in DestructuredKeys && k !in PayloadKeys
    requires GetProductInputValues(values, initialValues, isNewTranslation, parse).Ok?
    ensures Field(GetProductInputValues(values, initialValues, isNewTranslation, parse).value, k) == Field(values, k)
  {
    var inner := Unpriced(values, initialValues, isNewTranslation, parse).value;
    UnpricedCopies(values, initialValues, isNewTranslation, parse, k);
    PriceOverlayFields(inner, EditedOptions(values));
  }

  /* ---------------------------------------------------------------- */
  /* Loaded variations saved again                                     */
  /* ---------------------------------------------------------------- */

  /** `{ attribute_value_id: id }`. */
  function ValueRef(id: Option<Json>): Json
  {
    JObj(Record([("attribute_value_id", id)]))
  }

  /** The reference an attribute value is saved as. */
  function RefOf(x: Json): Json
  {
    ValueRef(Get(Some(x), "id"))
  }

  function IdRefOf(v: FormVariations.IdValue): Json
  {
    ValueRef(v.id)
  }

  /** The references of every value of every formatted variation, group by
      group. */
  function FlatRefs(fs: seq<FormVariations.FormattedVariation>): seq<Json>
  {
    if |fs| == 0 then [] else Seqs.Map(IdRefOf, fs[0].values) + FlatRefs(fs[1..])
  }

  lemma {:induction false} SaveEncodedIdValues(vs: seq<FormVariations.IdValue>)
    ensures AttributeValueIds(FormLoad.EncodeIdValues(vs)) == Ok(Seqs.Map(IdRefOf, vs))
  {
    if |vs| > 0 {
      SaveEncodedIdValues(vs[1..]);
      var e := FormLoad.EncodeIdValues(vs);
      var kvs := [("id", vs[0].id), ("value", vs[0].value)];
      assert kvs[..1] == [("id", vs[0].id)] && kvs[..1][..0] == [];
      assert Field(Record(kvs[..1]), "id") == vs[0].id;
      assert kvs[..2] == kvs && kvs[..|kvs| - 1] == kvs[..1];
      assert Record(kvs) == SetField(Record(kvs[..1]), "value", vs[0].value);
      assert Field(Record(kvs), "id") == vs[0].id;
      assert e[0] == JObj(Record(kvs));
      assert Get(Some(e[0]), "id") == vs[0].id;
      assert e[1..] == FormLoad.EncodeIdValues(vs[1..]);
    }
  }

  lemma {:induction false} SaveEncodedFormatted(fs: seq<FormVariations.FormattedVariation>)
    ensures VariationValues(FormLoad.EncodeFormatted(fs)) == Ok(FlatRefs(fs))
  {
    if |fs| > 0 {
      SaveEncodedFormatted(fs[1..]);
      SaveEncodedIdValues(fs[0].values);
      var e := FormLoad.EncodeFormatted(fs);
      var kvs := [("attribute", fs[0].attribute), ("value", Some(JArr(FormLoad.EncodeIdValues(fs[0].values))))];
      assert kvs[..1][..0] == [] && kvs[..2] == kvs;
      assert Get(Some(e[0]), "value") == Some(JArr(FormLoad.EncodeIdValues(fs[0].values)));
      assert e[1..] == FormLoad.EncodeFormatted(fs[1..]);
    }
  }

  /** The groups' references, in the order of the keys `ks`, are the
      references of the grouped values. */
  lemma {:induction false} FlatRefsOfGroups(xs: seq<Json>, ks: seq<string>, fs: seq<FormVariations.FormattedVariation>)
    requires |fs| == |ks|
    requires forall i :: 0 <= i < |fs| ==> Seqs.Map(IdRefOf, fs[i].values) == Seqs.Map(RefOf, FormVariations.Members(xs, ks[i]))
    ensures FlatRefs(fs) == Seqs.Map(RefOf, FormVariations.FlatMembers(xs, ks))
  {
    if |fs| > 0 {
      FlatRefsOfGroups(xs, ks[1..], fs[1..]);
      assert forall i :: 1 <= i < |fs| ==> fs[i] == fs[1..][i - 1] && ks[i] == ks[1..][i - 1];
      Seqs.MapAppend(RefOf, FormVariations.Members(xs, ks[0]), FormVariations.FlatMembers(xs, ks[1..]));
    }
  }

  /** The references of the formatted variations are those of the grouped
      values, group by group. */
  lemma FormattedRefs(xs: seq<Json>)
    requires JNull !in xs
    ensures FormVariations.GetFormattedVariations(Some(JArr(xs))).Ok?
    ensures FlatRefs(FormVariations.GetFormattedVariations(Some(JArr(xs))).value) ==
            Seqs.Map(RefOf, FormVariations.FlatMembers(xs, FormVariations.Keys(xs)))
  {
    FormVariations.FormattedVariationsAreGroups(xs);
    var fs := FormVariations.GetFormattedVariations(Some(JArr(xs))).value;
    var ks := FormVariations.Keys(xs);
    forall i | 0 <= i < |fs|
      ensures Seqs.Map(IdRefOf, fs[i].values) == Seqs.Map(RefOf, FormVariations.Members(xs, ks[i]))
    {
      var vs := FormVariations.Members(xs, ks[i]);
      Seqs.MapPointwise(IdRefOf, fs[i].values, RefOf, vs);
    }
    FlatRefsOfGroups(xs, ks, fs);
  }

  /** Saving the variations the load direction put into the form, unedited,
      references every attribute value of the product exactly once: the
      grouping by attribute changes the order and nothing else. */
  lemma LoadedVariationsSaveEveryValue(xs: seq<Json>)
    requires JNull !in xs
    ensures FormVariations.GetFormattedVariations(Some(JArr(xs))).Ok?
    ensures var fs := FormVariations.GetFormattedVariations(Some(JArr(xs))).value;
      var r := SaveVariations(Some(JArr(FormLoad.EncodeFormatted(fs))));
      r.Ok? && r.value.JArr? && multiset(r.value.items) == multiset(Seqs.Map(RefOf, xs))
  {
    FormattedRefs(xs);
    var fs := FormVariations.GetFormattedVariations(Some(JArr(xs))).value;
    var flat := FormVariations.FlatMembers(xs, FormVariations.Keys(xs));
    SaveEncodedFormatted(fs);
    assert SaveVariations(Some(JArr(FormLoad.EncodeFormatted(fs)))) == Ok(JArr(Seqs.Map(RefOf, flat)));
    FormVariations.GroupsPartitionInput(xs);
    Seqs.MapPermutation(RefOf, flat, xs);
  }
}
