/**
 * The load direction of the product form, `getProductDefaultValues`
 * (form-utils.ts:201-312): from the product record the backend returns to
 * the form's initial values.
 *
 * The result is the product's own properties overlaid, in order, with the
 * select value of the layout type, the product-type option, the digital
 * file input of a digital simple product, the grouped variations and
 * cleaned options of a variable product, the normalised category rows and
 * the `{id, name}` tags; a new translation then resets the fields that must
 * not be copied. `cloneDeep` has no observable effect on immutable values.
 */
module FormLoad {
  import opened Wrappers
  import opened Js
  import FormCategories
  import FormVariations

  const SIMPLE := "simple"
  const VARIABLE := "variable"

  /** `productTypeOptions`: one `{name, value}` per member of the
      `ProductType` enumeration, in declaration order. */
  const ProductTypeOptions: seq<Json> :=
    [JObj(map["name" := JStr("Simple"), "value" := JStr(SIMPLE)]),
     JObj(map["name" := JStr("Variable"), "value" := JStr(VARIABLE)])]

  /** The form values without a product (lines 205-221). */
  const NoProductDefaults: map<string, Json> :=
    map["product_type" := ProductTypeOptions[0], "min_price" := JNum(0), "max_price" := JNum(0),
        "categories" := JArr([]), "tags" := JArr([]), "type" := JNull, "in_stock" := JBool(true),
        "is_taxable" := JBool(false), "image" := JArr([]), "gallery" := JArr([]), "video" := JArr([]),
        "variations" := JArr([]), "variation_options" := JArr([])]

  /** `product_type === value` for a product-type string. */
  predicate IsProductType(product: Option<Json>, value: string)
  {
    StrictEq(Get(product, "product_type"), Some(JStr(value)))
  }

  /** `productTypeOptions.find((o) => product_type === o.value)`. */
  function FindProductType(pt: Option<Json>): (r: Option<Json>)
    ensures r.Some? <==> StrictEq(pt, Some(JStr(SIMPLE))) || StrictEq(pt, Some(JStr(VARIABLE)))
    ensures r.Some? ==> r.value in ProductTypeOptions && StrictEq(pt, Get(r, "value"))
  {
    if StrictEq(pt, Get(Some(ProductTypeOptions[0]), "value")) then Some(ProductTypeOptions[0])
    else if StrictEq(pt, Get(Some(ProductTypeOptions[1]), "value")) then Some(ProductTypeOptions[1])
    else None
  }

  /** The layout-type select value (lines 236-243): the product's `type`
      relation when present, else one built from `type_id`, else `null`. */
  function TypeField(product: Option<Json>): Json
  {
    var t := Get(product, "type");
    var typeId := Get(product, "type_id");
    if Truthy(t) then
      JObj(map["id" := JStr(StrOf(Coalesce([Get(t, "id"), typeId]))), "name" := Or(Get(t, "name"), JStr(""))])
    else if Truthy(typeId) then
      JObj(map["id" := JStr(StrOf(typeId)), "name" := JStr("")])
    else JNull
  }

  /** The digital file input of a digital simple product (lines 251-259). */
  function DigitalFileInput(product: Option<Json>): Option<Json>
  {
    var df := Get(product, "digital_file");
    if IsProductType(product, SIMPLE) && Truthy(Get(product, "is_digital")) then
      Some(JObj(Record([("id", Get(df, "attachment_id")), ("thumbnail", Get(df, "url")), ("original", Get(df, "url"))])))
    else None
  }

  /** The grouped variations as the form stores them. */
  function EncodeFormatted(fs: seq<FormVariations.FormattedVariation>): seq<Json>
  {
    if |fs| == 0 then []
    else
      [JObj(Record([("attribute", fs[0].attribute), ("value", Some(JArr(EncodeIdValues(fs[0].values))))]))] +
      EncodeFormatted(fs[1..])
  }

  function EncodeIdValues(vs: seq<FormVariations.IdValue>): seq<Json>
  {
    if |vs| == 0 then []
    else [JObj(Record([("id", vs[0].id), ("value", vs[0].value)]))] + EncodeIdValues(vs[1..])
  }

  /** One variation option of a variable product (lines 264-275): the option
      without its image, the image again with `__typename` stripped when it
      is not empty, and a file input built from its digital file. */
  function LoadOption(x: Json): (r: Result<Json>)
    ensures r.TypeError? <==> x == JNull
    ensures r.Ok? ==> r.value.JObj?
    ensures r.Ok? ==> var f := r.value.fields; var image := Get(Some(x), "image");
      && ("image" in f <==> !IsEmptyValue(image))
      && ("image" in f ==> f["image"] == OmitTypename(image.value))
    ensures r.Ok? ==> var f := r.value.fields; var df := Field(Spread(Some(x)), "digital_file");
      && (Truthy(df) ==>
            Field(f, "digital_file_input") == Some(JObj(Record([("id", Get(df, "attachment_id")), ("file_name", Get(df, "file_name"))]))))
      && (!Truthy(df) ==> Field(f, "digital_file_input") == Field(Spread(Some(x)), "digital_file_input"))
    ensures r.Ok? ==> var f := r.value.fields;
      forall k :: k != "image" && k != "digital_file_input" ==> Field(f, k) == Field(Spread(Some(x)), k)
  {
    if x == JNull then TypeError
    else
      var image := Get(Some(x), "image");
      var option := Spread(Some(x)) - {"image"};
      var withImage := if !IsEmptyValue(image) then option["image" := OmitTypename(image.value)] else option;
      var df := Field(option, "digital_file");
      Ok(JObj(
        if Truthy(df) then
          withImage["digital_file_input" := JObj(Record([("id", Get(df, "attachment_id")), ("file_name", Get(df, "file_name"))]))]
        else withImage))
  }

  function LoadOptions(xs: seq<Json>): (r: Result<seq<Json>>)
    ensures r.TypeError? <==> JNull in xs
    ensures r.Ok? ==> |r.value| == |xs| && forall i :: 0 <= i < |xs| ==> Ok(r.value[i]) == LoadOption(xs[i])
  {
    if |xs| == 0 then Ok([])
    else
      var first := LoadOption(xs[0]);
      var rest := LoadOptions(xs[1..]);
      assert xs == [xs[0]] + xs[1..];
      if first.TypeError? || rest.TypeError? then TypeError else Ok([first.value] + rest.value)
  }

  /** `variation_options?.map(...)`: `undefined` when absent; `.map` of a
      non-array throws. */
  function LoadVariationOptions(v: Option<Json>): Result<Option<Json>>
  {
    if Nullish(v) then Ok(None)
    else if !v.value.JArr? then TypeError
    else
      var r := LoadOptions(v.value.items);
      if r.TypeError? then TypeError else Ok(Some(JArr(r.value)))
  }

  function TagsOf(xs: seq<Json>): (r: Result<seq<Json>>)
    ensures r.TypeError? <==> JNull in xs
    ensures r.Ok? ==> |r.value| == |xs|
    ensures r.Ok? ==> forall i :: 0 <= i < |xs| ==> r.value[i] == JObj(Record([("id", Get(Some(xs[i]), "id")), ("name", Get(Some(xs[i]), "name"))]))
  {
    if |xs| == 0 then Ok([])
    else if xs[0] == JNull then TypeError
    else
      var rest := TagsOf(xs[1..]);
      assert xs == [xs[0]] + xs[1..];
      if rest.TypeError? then TypeError
      else Ok([JObj(Record([("id", Get(Some(xs[0]), "id")), ("name", Get(Some(xs[0]), "name"))]))] + rest.value)
  }

  /** `tags?.map((t) => ({ id: t.id, name: t.name })) ?? []`. */
  function LoadTags(v: Option<Json>): Result<Json>
  {
    if Nullish(v) then Ok(JArr([]))
    else if !v.value.JArr? then TypeError
    else
      var r := TagsOf(v.value.items);
      if r.TypeError? then TypeError else Ok(JArr(r.value))
  }

  /** The fields a new translation resets (lines 295-310). */
  function TranslationReset(m: map<string, Json>, variable: bool): map<string, Json>
  {
    var reset := m["type" := JNull]["categories" := JArr([])]["author_id" := JNull]["manufacturer_id" := JNull]
                  ["tags" := JArr([])]["author" := JArr([])]["manufacturer" := JArr([])]["variations" := JArr([])]
                  ["variation_options" := JArr([])]["digital_file" := JStr("")]["digital_file_input" := JObj(map[])];
    if variable then reset["quantity" := JNull] else reset
  }

  /** The keys the load direction writes over the product's own. */
  const WrittenKeys: set<string> :=
    {"type", "product_type", "digital_file_input", "variations", "variation_options", "categories", "tags",
     "author_id", "manufacturer_id", "author", "manufacturer", "digital_file", "quantity"}

  /** The overlay of a product once the computed parts are known. */
  function Assemble(product: Option<Json>, isNewTranslation: bool, variations: seq<Json>, options: Option<Json>,
                    rows: seq<FormCategories.CategoryRow>, tags: Json): map<string, Json>
  {
    var variable := IsProductType(product, VARIABLE);
    var m0 := Spread(product)["type" := TypeField(product)];
    var m1 := SetField(m0, "product_type", FindProductType(Get(product, "product_type")));
    var df := DigitalFileInput(product);
    var m2 := if df.Some? then m1["digital_file_input" := df.value] else m1;
    var m3 := if variable then SetField(m2["variations" := JArr(variations)], "variation_options", options) else m2;
    var m4 := m3["categories" := JArr(FormCategories.EncodeRows(rows))]["tags" := tags];
    if isNewTranslation then TranslationReset(m4, variable) else m4
  }

  /** The grouped variations of a variable product; none otherwise. */
  function LoadedVariations(product: Option<Json>): Result<seq<Json>>
  {
    if IsProductType(product, VARIABLE) then
      var r := FormVariations.GetFormattedVariations(Get(product, "variations"));
      if r.TypeError? then TypeError else Ok(EncodeFormatted(r.value))
    else Ok([])
  }

  /** The cleaned options of a variable product; none otherwise. */
  function LoadedOptions(product: Option<Json>): Result<Option<Json>>
  {
    if IsProductType(product, VARIABLE) then LoadVariationOptions(Get(product, "variation_options")) else Ok(None)
  }

  /** `getProductDefaultValues(product, isNewTranslation)`; a `TypeError` is
      one of the throws of the category normalisation, the tag mapping, or
      the variation grouping and option mapping of a variable product. */
  function GetProductDefaultValues(product: Option<Json>, isNewTranslation: bool): (r: Result<map<string, Json>>)
    ensures !Truthy(product) ==> r == Ok(NoProductDefaults)
    ensures Truthy(product) ==>
              (r.TypeError? <==>
                 FormCategories.Normalize(product).TypeError? || LoadTags(Get(product, "tags")).TypeError? ||
                 (IsProductType(product, VARIABLE) &&
                   (FormVariations.GetFormattedVariations(Get(product, "variations")).TypeError? ||
                    LoadVariationOptions(Get(product, "variation_options")).TypeError?)))
  {
    if !Truthy(product) then Ok(NoProductDefaults)
    else
      var variations := LoadedVariations(product);
      var options := LoadedOptions(product);
      var rows := FormCategories.Normalize(product);
      var tags := LoadTags(Get(product, "tags"));
      if variations.TypeError? || options.TypeError? || rows.TypeError? || tags.TypeError? then TypeError
      else Ok(Assemble(product, isNewTranslation, variations.value, options.value, rows.value, tags.value))
  }

  /** A product that loads is the overlay of its computed parts. */
  lemma LoadIsAssemble(product: Option<Json>, isNewTranslation: bool)
    requires Truthy(product)
    ensures GetProductDefaultValues(product, isNewTranslation).Ok? ==>
              && LoadedVariations(product).Ok? && LoadedOptions(product).Ok?
              && FormCategories.Normalize(product).Ok? && LoadTags(Get(product, "tags")).Ok?
              && GetProductDefaultValues(product, isNewTranslation).value ==
                   Assemble(product, isNewTranslation, LoadedVariations(product).value, LoadedOptions(product).value,
                            FormCategories.Normalize(product).value, LoadTags(Get(product, "tags")).value)
  {
  }

  /* ---------------------------------------------------------------- */
  /* Properties                                                       */
  /* ---------------------------------------------------------------- */

  /** A new translation resets the copied fields of any overlay. */
  lemma ResetFields(m0: map<string, Json>, variable: bool)
    ensures var m := TranslationReset(m0, variable);
      && Field(m, "type") == Some(JNull) && Field(m, "categories") == Some(JArr([])) && Field(m, "tags") == Some(JArr([]))
      && Field(m, "variations") == Some(JArr([])) && Field(m, "variation_options") == Some(JArr([]))
      && Field(m, "author_id") == Some(JNull) && Field(m, "manufacturer_id") == Some(JNull)
      && Field(m, "author") == Some(JArr([])) && Field(m, "manufacturer") == Some(JArr([]))
      && Field(m, "digital_file") == Some(JStr("")) && Field(m, "digital_file_input") == Some(JObj(map[]))
      && (variable ==> Field(m, "quantity") == Some(JNull))
  {
  }

  lemma AssembleResets(product: Option<Json>, vs: seq<Json>, opts: Option<Json>, rows: seq<FormCategories.CategoryRow>, tags: Json)
    ensures var m := Assemble(product, true, vs, opts, rows, tags);
      && Field(m, "type") == Some(JNull) && Field(m, "categories") == Some(JArr([])) && Field(m, "tags") == Some(JArr([]))
      && Field(m, "variations") == Some(JArr([])) && Field(m, "variation_options") == Some(JArr([]))
      && Field(m, "author_id") == Some(JNull) && Field(m, "manufacturer_id") == Some(JNull)
      && Field(m, "author") == Some(JArr([])) && Field(m, "manufacturer") == Some(JArr([]))
      && Field(m, "digital_file") == Some(JStr("")) && Field(m, "digital_file_input") == Some(JObj(map[]))
      && (IsProductType(product, VARIABLE) ==> Field(m, "quantity") == Some(JNull))
  {
    var variable := IsProductType(product, VARIABLE);
    ResetFields(Assemble(product, false, vs, opts, rows, tags), variable);
  }

  /** A new translation starts without layout type, categories, tags,
      author, manufacturer, variations, options or digital file, whatever
      the product holds; a variable product's quantity is reset too. */
  lemma NewTranslationResets(product: Option<Json>)
    requires GetProductDefaultValues(product, true).Ok?
    ensures var m := GetProductDefaultValues(product, true).value;
      && Field(m, "type") == Some(JNull)
      && Field(m, "categories") == Some(JArr([])) && Field(m, "tags") == Some(JArr([]))
      && Field(m, "variations") == Some(JArr([])) && Field(m, "variation_options") == Some(JArr([]))
      && (Truthy(product) ==>
            && Field(m, "author_id") == Some(JNull) && Field(m, "manufacturer_id") == Some(JNull)
            && Field(m, "author") == Some(JArr([])) && Field(m, "manufacturer") == Some(JArr([]))
            && Field(m, "digital_file") == Some(JStr("")) && Field(m, "digital_file_input") == Some(JObj(map[]))
            && (IsProductType(product, VARIABLE) ==> Field(m, "quantity") == Some(JNull)))
  {
    if Truthy(product) {
      LoadIsAssemble(product, true);
      AssembleResets(product, LoadedVariations(product).value, LoadedOptions(product).value,
                     FormCategories.Normalize(product).value, LoadTags(Get(product, "tags")).value);
    }
  }

  /** Keys outside `WrittenKeys` are those of the product. */
  lemma AssemblePassesThrough(product: Option<Json>, t: bool, vs: seq<Json>, opts: Option<Json>,
                              rows: seq<FormCategories.CategoryRow>, tags: Json, k: string)
    requires k !in WrittenKeys
    ensures var m := Assemble(product, t, vs, opts, rows, tags);
      (k in m <==> k in Spread(product)) && (k in m ==> m[k] == Spread(product)[k])
  {
  }

  /** Every property the load direction does not write is copied from the
      product unchanged, and no other property appears. */
  lemma OwnFieldsPassThrough(product: Option<Json>, isNewTranslation: bool, k: string)
    requires Truthy(product) && k !in WrittenKeys
    ensures var r := GetProductDefaultValues(product, isNewTranslation);
      r.Ok? ==> (k in r.value <==> k in Spread(product)) && (k in r.value ==> r.value[k] == Spread(product)[k])
  {
    LoadIsAssemble(product, isNewTranslation);
    if GetProductDefaultValues(product, isNewTranslation).Ok? {
      AssemblePassesThrough(product, isNewTranslation, LoadedVariations(product).value, LoadedOptions(product).value,
                            FormCategories.Normalize(product).value, LoadTags(Get(product, "tags")).value, k);
    }
  }

  /** Without a new translation the categories are the normalised rows and
      the tags their `{id, name}` pairs. */
  lemma CategoriesAndTagsLoaded(product: Option<Json>)
    requires Truthy(product)
    ensures var r := GetProductDefaultValues(product, false);
      r.Ok? ==>
        && FormCategories.Normalize(product).Ok? && LoadTags(Get(product, "tags")).Ok?
        && Field(r.value, "categories") == Some(JArr(FormCategories.EncodeRows(FormCategories.Normalize(product).value)))
        && Field(r.value, "tags") == Some(LoadTags(Get(product, "tags")).value)
  {
    LoadIsAssemble(product, false);
  }

  /** The variable-product fields are written only for a variable product;
      otherwise the product's own `variations` and `variation_options` pass
      through. */
  lemma AssembleVariations(product: Option<Json>, vs: seq<Json>, opts: Option<Json>,
                           rows: seq<FormCategories.CategoryRow>, tags: Json)
    ensures var m := Assemble(product, false, vs, opts, rows, tags);
      && (IsProductType(product, VARIABLE) ==>
            && Field(m, "variations") == Some(JArr(vs))
            && ("variation_options" in m <==> opts.Some?)
            && Field(m, "variation_options") == opts)
      && (!IsProductType(product, VARIABLE) ==>
            && ("variations" in m <==> "variations" in Spread(product))
            && ("variation_options" in m <==> "variation_options" in Spread(product)))
  {
  }

  lemma VariationsOnlyForVariableProducts(product: Option<Json>)
    requires Truthy(product)
    ensures var r := GetProductDefaultValues(product, false);
      r.Ok? ==> var m := r.value;
      && (IsProductType(product, VARIABLE) ==>
            && FormVariations.GetFormattedVariations(Get(product, "variations")).Ok?
            && Field(m, "variations") == Some(JArr(EncodeFormatted(FormVariations.GetFormattedVariations(Get(product, "variations")).value)))
            && LoadVariationOptions(Get(product, "variation_options")).Ok?
            && ("variation_options" in m <==> LoadVariationOptions(Get(product, "variation_options")).value.Some?)
            && Field(m, "variation_options") == LoadVariationOptions(Get(product, "variation_options")).value)
      && (!IsProductType(product, VARIABLE) ==>
            && ("variations" in m <==> "variations" in Spread(product))
            && ("variation_options" in m <==> "variation_options" in Spread(product)))
  {
    LoadIsAssemble(product, false);
    if GetProductDefaultValues(product, false).Ok? {
      AssembleVariations(product, LoadedVariations(product).value, LoadedOptions(product).value,
                         FormCategories.Normalize(product).value, LoadTags(Get(product, "tags")).value);
    }
  }

  /** The layout-type id falls back on `type_id` when the relation has none,
      and a product with neither gets `null`. */
  lemma TypeIdFallback(product: Option<Json>)
    ensures Truthy(Get(product, "type")) && Nullish(Get(Get(product, "type"), "id")) ==>
              TypeField(product).JObj? && TypeField(product).fields["id"] == JStr(StrOf(Get(product, "type_id")))
    ensures !Truthy(Get(product, "type")) && !Truthy(Get(product, "type_id")) ==> TypeField(product) == JNull
  {
    var t := Get(product, "type");
    CoalesceIsFirstDefined([Get(t, "id"), Get(product, "type_id")]);
  }
}
