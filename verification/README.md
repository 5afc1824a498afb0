# Product form, shops and notifications logic of the marketplace admin

This project models the pure logic of a marketplace administration front
end. Its centre is the product editor's form utilities
(`src/components/product/form-utils.ts`). Two directions are modelled:

- the load direction, which turns the product record the backend returns
  into the form's initial values;
- the save direction, which turns the edited form back into the payload
  the backend expects.

Around them the project models:

- the category picker of the product form;
- the shops page: its filters, its query, and the client-side filtering
  and sorting of the shown list;
- the shop client's query parameters;
- the withdrawals page's query, status toggle and page jump;
- the shop logo and address helpers of the shop preview and the shop table;
- the product client's reply normalisation and update payload;
- the notification panel: titles, messages, unread count and badge, and
  the click handler, which the panel as written never attaches;
- the `hasAccess` permission check.

JavaScript values are the datatype `Js.Json`. `undefined` is `None` of an
`Option<Json>`, and `null` is `JNull`. Numbers are integers, and `NaN` is a
value of its own. A function that can throw returns a `Result`, whose
`TypeError` case is the throw. The lodash helpers `groupBy`, `orderBy`,
`sum`, `isEmpty` and `omit` are specified by what they do. The
repository's own `cartesian` and `omitTypename` helpers, imported from
`@/utils/cartesian` and `@/utils/omit-typename`, are not part of this
model: they are specified by the behaviour their callers rely on (see
"## Left out"). Browser and runtime facilities become parameters:

- `JSON.parse`: a function returning `None` where it throws;
- `localeCompare`;
- `HttpClient.formatSearchParams`;
- the REST endpoint and the placeholder image path.

Modules follow the source files:

- `Js`, `Seqs`, `Sorting`, `Wrappers`: shared JavaScript semantics and
  sequence lemmas.
- `FormEnvelopes`, `FormPricing`, `FormVariations`, `FormCategories`,
  `FormLoad`, `FormSave`: `form-utils.ts`.
- `CategoryPicker`: `product-category-input.tsx`.
- `ShopsPage`, `ShopsFilter`, `ShopClient`: the shops page, its advanced
  filter and `data/client/shop.ts`.
- `Withdrawals`, `ShopPreview`, `ProductClient`, `Notifications`, `Auth`:
  the remaining files.

## Model

| member | source | states |
|---|---|---|
| FormEnvelopes.EnsureVariationOptionsArray | src/components/product/form-utils.ts:23-29 | a non-empty result comes only from an array or from an object carrying `data` |
| FormEnvelopes.EnvelopeIsTransparent | src/components/product/form-utils.ts:23-29 | `{data: xs}` reads exactly like the bare `xs`; reading the result again as an array changes nothing |
| FormEnvelopes.NonListReadsAsEmpty | src/components/product/form-utils.ts:23-29 | `null`, `undefined`, strings and objects without an array `data` read as no options |
| FormEnvelopes.ProcessOptionsDecodesStoredText | src/components/product/form-utils.ts:76-82 | text written by a serializer that `JSON.parse` inverts comes back as the encoded value; a value whose text does not parse is returned unchanged |
| FormPricing.KeyColumn | src/components/product/form-utils.ts:91-92 | the sort key of each option, position by position |
| FormPricing.LeastKey | src/components/product/form-utils.ts:91-98 | the first key after a stable `orderBy` that puts missing keys last: absent iff no option has the key, else a present key not above any other |
| FormPricing.LastKey | src/components/product/form-utils.ts:99-100 | the last key after `orderBy`: absent iff some option lacks the key, else a key not below any other |
| FormPricing.CalculateMinMaxPrice | src/components/product/form-utils.ts:84-102 | both bounds are `null` exactly for an empty option list |
| FormPricing.LowBoundIsLeast | src/components/product/form-utils.ts:94-98 | when every price is present, the lower bound is a price or sale price that no price or sale price undercuts |
| FormPricing.MaxPriceIsHighest | src/components/product/form-utils.ts:99-100 | with every price present, `max_price` is one option's price and no option's price exceeds it |
| FormPricing.MinPriceIsLowest | src/components/product/form-utils.ts:94-98 | with every price present, `min_price` is some option's price or sale price and none is lower |
| FormPricing.MinNotAboveMax | src/components/product/form-utils.ts:84-102 | with every price present, both bounds are numbers and `min_price <= max_price` |
| FormPricing.MissingPriceHidesMax | src/components/product/form-utils.ts:99-100 | one option without a price leaves `max_price` undefined, because `orderBy` puts it last |
| FormPricing.BaseSumIsTotal | src/components/product/form-utils.ts:104-108 | lodash's left-to-right sum is undefined iff no value is defined, and otherwise equals the reference total with missing values as zero |
| FormPricing.QuantityIsTotal | src/components/product/form-utils.ts:104-108 | the quantity is the sum of the option quantities, missing ones counted as zero; it is undefined only for a non-empty list without any quantity |
| FormVariations.AddToGroupEffect | src/components/product/form-utils.ts:67 | one `groupBy` step grows the group of a known key and leaves the others alone, or opens a group at the end for a new key |
| FormVariations.KeysDistinct | src/components/product/form-utils.ts:67 | the group keys are distinct |
| FormVariations.KeysAreTheKeys | src/components/product/form-utils.ts:67 | a key is listed iff some value carries it |
| FormVariations.MembersAreTheValuesOfKey | src/components/product/form-utils.ts:67 | a value is in the group of key `k` iff it is in the input and its slug key is `k` |
| FormVariations.GroupByIsReference | src/components/product/form-utils.ts:67-68 | `groupBy` then `Object.values` gives one group per distinct key, in order of first occurrence, holding that key's values in input order |
| FormVariations.GroupsPartitionInput | src/components/product/form-utils.ts:67-68 | the groups together are a permutation of the input: every value kept as often as it occurs |
| FormVariations.FlatMembersSnoc | src/components/product/form-utils.ts:67 | a new value joins the groups of distinct keys once when its key is among them, otherwise not at all |
| FormVariations.IdValues | src/components/product/form-utils.ts:71 | the map throws iff some value is `null`; otherwise it gives each value's `{id, value}` in order |
| FormVariations.FormatGroupsAt | src/components/product/form-utils.ts:68-73 | formatting throws iff some group holds `null`; otherwise each entry has its group's first attribute and pairs |
| FormVariations.FormattedVariationsAreGroups | src/components/product/form-utils.ts:66-74 | `getFormattedVariations` throws iff a value is `null`; otherwise one entry per distinct slug in first-occurrence order, with that slug's `{id, value}` pairs in input order |
| FormVariations.StringVariationsOneGroup | src/components/product/form-utils.ts:66-74 | a string is grouped by its characters: an empty string gives no entry, any other one entry with an undefined attribute and one pair of two `undefined`s per character |
| FormVariations.OnePropertyObjectGroupsItsValue | src/components/product/form-utils.ts:66-74 | an object with one property, other than an array-like `length`, is grouped as the one-element array of its value, so `{data: [...]}` gives one entry with an undefined attribute and one undefined pair |
| FormVariations.LengthObjectIsArrayLike | src/components/product/form-utils.ts:66-74 | `{length: n}` with a length lodash accepts is array-like: no entry for 0, a throw from `v.id` otherwise; any other `length` is grouped as a plain value |
| FormVariations.FindBySlug | src/components/product/form-utils.ts:318-320 | `find` succeeds iff some variation's `attribute.slug` is strictly equal to the slug, and returns such a variation |
| FormVariations.FilterList | src/components/product/form-utils.ts:317-321 | the filter throws iff the first attribute's `find` throws; otherwise it keeps only attributes whose `find` returned nothing truthy |
| FormVariations.FilterListKeepsExactly | src/components/product/form-utils.ts:315-323 | an attribute is kept iff it is in the input and its `find` returns nothing truthy |
| FormVariations.AttributeHiddenIffUsed | src/components/product/form-utils.ts:315-323 | an attribute with a defined slug is hidden iff some chosen value's attribute has that slug; with no variations everything stays |
| FormVariations.EntriesOf | src/components/product/form-utils.ts:329-333 | one `{name, value, id}` entry per attribute value, in order |
| FormVariations.FormattedValues | src/components/product/form-utils.ts:326-335 | the map throws iff some value's `value` is present but not an array; the kept groups are no more than the values |
| FormVariations.FormattedValuesArePresentGroups | src/components/product/form-utils.ts:326-335 | the kept groups are exactly the entries of the values that have a value list, in the values' order: their positions increase, and every other value has none |
| FormVariations.FormattedValuesSkipsAbsent | src/components/product/form-utils.ts:335 | a value without a value list contributes no group |
| FormVariations.Prefixed | src/components/product/form-utils.ts:337 | `[e, ...c]` for every combination `c`, in order |
| FormVariations.CartAuxSize | src/components/product/form-utils.ts:337 | one group times the rest's combinations gives the product of their sizes |
| FormVariations.CartAuxAt | src/components/product/form-utils.ts:337 | combination `i*n+j` is the group's i-th entry before the rest's j-th combination |
| FormVariations.CartAuxMembers | src/components/product/form-utils.ts:337 | a sequence is a combination iff its head is in the group and its tail is a combination of the rest |
| FormVariations.CartesianSize | src/components/product/form-utils.ts:337 | the number of combinations is the product of the group sizes |
| FormVariations.CartesianIsAllChoices | src/components/product/form-utils.ts:337 | a sequence is a combination iff it picks one entry of each group in group order |
| FormVariations.CartesianOrder | src/components/product/form-utils.ts:337 | the first group varies slowest |
| FormVariations.CartesianProductShape | src/components/product/form-utils.ts:325-338 | `[]` for absent input; otherwise every combination picks one entry per group and their count is the product of the group sizes |
| FormCategories.DropNaN | src/components/product/form-utils.ts:139 | the result keeps exactly the non-`NaN` numbers |
| FormCategories.ArrayIds | src/components/product/form-utils.ts:136-139 | the ids of an id array contain no `NaN` |
| FormCategories.WholeIds | src/components/product/form-utils.ts:169-170 | `Number()` of each element, with no `NaN` left |
| FormCategories.ParseProductIds | src/components/product/form-utils.ts:168-173 | `parseIdsProduct` never yields `NaN` |
| FormCategories.RelationIds | src/components/product/form-utils.ts:145-148 | `extractIdsFromObjects` yields only positive ids |
| FormCategories.PositiveIds | src/components/product/form-utils.ts:146-147 | only positive ids are kept |
| FormCategories.RowOfPriority | src/components/product/form-utils.ts:149-166 | each id list comes from the explicit field when it parses non-empty, else from the element's relation array, else from the pivot's |
| FormCategories.MapRows | src/components/product/form-utils.ts:149-166 | one row per element |
| FormCategories.KeepPositive | src/components/product/form-utils.ts:167 | only rows with a positive category id are kept |
| FormCategories.MergeProductIds | src/components/product/form-utils.ts:174-182 | product-level ids only fill an empty list of the first row; every other row and every category id is unchanged |
| FormCategories.Normalize | src/components/product/form-utils.ts:121-184 | a falsy product gives `[]`; every returned row has a positive category id |
| FormCategories.CategoryIdsAreIgnored | src/components/product/form-utils.ts:185-198 | without one of the five category keys the result is `[]`, so the `category_ids` fallback is never used |
| FormCategories.KeepPositiveAppend | src/components/product/form-utils.ts:167 | the row filter distributes over concatenation, so order and duplicates are kept |
| FormCategories.KeepPositiveMembership | src/components/product/form-utils.ts:167 | a row is kept iff it is in the input and its category id is positive |
| FormCategories.KeptRowsAppend | src/components/product/form-utils.ts:149-167 | the rows of two element lists are the rows of each, in order |
| FormCategories.DataEnvelopeIsTransparent | src/components/product/form-utils.ts:125-126 | a `{data: [...]}` category list normalises exactly like the bare array |
| FormCategories.SingleObjectIsOneElementArray | src/components/product/form-utils.ts:127 | a single category object normalises like a one-element array |
| FormCategories.SameListFields | src/components/product/form-utils.ts:124-132 | two `categories` values that unwrap to the same array read the same |
| FormCategories.SameNormalization | src/components/product/form-utils.ts:121-184 | normalisation depends on the product only through the raw list, the singular fallback and the product-level ids |
| FormCategories.SameProductIds | src/components/product/form-utils.ts:174-175 | changing the category list leaves the product-level ids unchanged |
| FormCategories.ParseEncodedIds | src/components/product/form-utils.ts:135-139 | parsing an id array written from numbers gives those numbers back |
| FormCategories.EncodedIdList | src/components/product/form-utils.ts:135-144 | `parseIds` of a written id array is the original id list |
| FormCategories.RowOfEncoded | src/components/product/form-utils.ts:149-166 | a canonical row written as the form stores it maps back to itself |
| FormCategories.MapEncodedRows | src/components/product/form-utils.ts:149-166 | written canonical rows map back to the same rows |
| FormCategories.KeepAllPositive | src/components/product/form-utils.ts:167 | the filter keeps every row when all ids are positive |
| FormCategories.NormalizeIsIdempotent | src/components/product/form-utils.ts:121-184 | a product whose `categories` is a list of canonical form rows normalises to exactly those rows |
| FormCategories.OnlyCategoriesField | src/components/product/form-utils.ts:124-175 | a product holding only a `categories` array has no product-level ids and is read through that array |
| FormLoad.FindProductType | src/components/product/form-utils.ts:248-250 | an option is found iff `product_type` is strictly 'simple' or 'variable', and it is the option with that value |
| FormLoad.LoadOption | src/components/product/form-utils.ts:265-276 | destructuring `null` throws; otherwise `image` is present iff the option's image is not lodash-empty and is then that image without `__typename`, `digital_file_input` is `{id: attachment_id, file_name}` when `digital_file` is truthy, and every other key is the option's own |
| FormLoad.LoadOptions | src/components/product/form-utils.ts:266-277 | the map throws iff an option is `null`; otherwise it cleans each option, position by position |
| FormLoad.TagsOf | src/components/product/form-utils.ts:288-292 | the map throws iff a tag is `null`; otherwise each tag becomes its `{id, name}` |
| FormLoad.GetProductDefaultValues | src/components/product/form-utils.ts:201-312 | no product gives the fixed defaults; a product gives an error exactly when one of its conversions throws |
| FormLoad.ResetFields | src/components/product/form-utils.ts:295-310 | the translation reset blanks the copied relations, and the quantity of a variable product |
| FormLoad.AssembleResets | src/components/product/form-utils.ts:295-310 | a new translation's overlay holds the reset values whatever was computed |
| FormLoad.NewTranslationResets | src/components/product/form-utils.ts:295-310 | a new translation starts without layout type, categories, tags, author, manufacturer, variations, options or digital file |
| FormLoad.AssemblePassesThrough | src/components/product/form-utils.ts:234-235 | keys the overlay does not write are exactly the product's own |
| FormLoad.OwnFieldsPassThrough | src/components/product/form-utils.ts:234-235 | every property the load does not write is copied from the product unchanged, and no other property appears |
| FormLoad.CategoriesAndTagsLoaded | src/components/product/form-utils.ts:283-292 | without a translation the categories are the normalised rows and the tags their `{id, name}` pairs |
| FormLoad.AssembleVariations | src/components/product/form-utils.ts:264-278 | a variable product gets exactly the given variations and options, with `variation_options` absent when there are none; otherwise the product's own pass through |
| FormLoad.VariationsOnlyForVariableProducts | src/components/product/form-utils.ts:264-278 | a variable product gets its grouped variations, and its `variation_options` are the mapped options, absent exactly when the product has none; any other keeps its own |
| FormLoad.TypeIdFallback | src/components/product/form-utils.ts:238-245 | the layout-type id falls back on `type_id`; neither relation nor `type_id` gives `null` |
| FormSave.CategoryStrings | src/components/product/form-utils.ts:371 | only non-empty strings are sent, no more than there are rows |
| FormSave.CategoryStringsKeepNonEmpty | src/components/product/form-utils.ts:371 | a category string is sent iff it is non-empty and some row carries it |
| FormSave.SavedCategoriesOfLoadedRows | src/components/product/form-utils.ts:371 | the rows the load direction stores come back, in order, as the decimal strings of their category ids |
| FormSave.LoadedRowIdString | src/components/product/form-utils.ts:371 | a stored row reads back as the non-empty decimal text of its category id |
| FormSave.Ids | src/components/product/form-utils.ts:372-391 | each tag, and each original option, is sent as its id, position by position, `undefined` as `null` |
| FormSave.OmitEach | src/components/product/form-utils.ts:375 | each gallery item is sent without `__typename` |
| FormSave.DigitalFileIdIgnoresTranslation | src/components/product/form-utils.ts:378-384 | the stored file id is sent whether or not the form is a new translation |
| FormSave.EditedOptions | src/components/product/form-utils.ts:395 | the edited options carry numeric prices and quantities where present |
| FormSave.AttributeValueIds | src/components/product/form-utils.ts:398 | the reference map throws iff some value is `null`, otherwise one reference per value |
| FormSave.NameValues | src/components/product/form-utils.ts:423-428 | the option map throws iff an option is `null`, otherwise one `{name, value}` per option |
| FormSave.Upserts | src/components/product/form-utils.ts:401-430 | one upserted entry per edited option, in order |
| FormSave.UpsertEntryShape | src/components/product/form-utils.ts:409-429 | an upserted option has an `id` exactly when the form's id is not '', carries no `__typename` and always has `options` |
| FormSave.DeleteIdsAreTheUnmatched | src/components/product/form-utils.ts:431-441 | `delete` lists exactly the ids of original options that no edited option matches under `===`, and no more ids than original options |
| FormSave.NothingEditedDeletesAll | src/components/product/form-utils.ts:431-441 | without edited options every defined original id is deleted |
| FormSave.BasePayloadWrites | src/components/product/form-utils.ts:362-392 | the base payload is digital, says 'simple', has no variations and deletes every original option |
| FormSave.ProductFieldsWrites | src/components/product/form-utils.ts:362-376 | the product fields hold the converted categories, tags, gallery and the copied quantity |
| FormSave.BasePayloadCopies | src/components/product/form-utils.ts:345-363 | a field that is neither destructured nor written is copied unchanged |
| FormSave.VariableOverlayFields | src/components/product/form-utils.ts:394-443 | the variable overlay writes quantity, variations and options and nothing else |
| FormSave.PriceOverlayFields | src/components/product/form-utils.ts:445 | the price bounds are written over whatever the payload held, and nothing else changes |
| FormSave.Unpriced | src/components/product/form-utils.ts:359-443 | the payload before the price bounds fails exactly when one of the conversions throws |
| FormSave.UnpricedWrites | src/components/product/form-utils.ts:362-443 | the fields before the price bounds: the base payload's for a simple form, the variable overlay's for a variable one |
| FormSave.UnpricedCopies | src/components/product/form-utils.ts:345-363 | fields that are neither destructured nor written survive to the last step |
| FormSave.GetProductInputValues | src/components/product/form-utils.ts:340-446 | the payload is an error exactly when one of its conversions throws |
| FormSave.PayloadInvariants | src/components/product/form-utils.ts:362-446 | every payload is digital, says 'simple', carries `upsert` and `delete`, and holds the computed price bounds whatever the form held |
| FormSave.SimpleProductPayload | src/components/product/form-utils.ts:386-392 | a non-variable product upserts nothing, deletes every original option, sends no variations and keeps its quantity |
| FormSave.VariableProductPayload | src/components/product/form-utils.ts:394-443 | a variable product upserts one entry per edited option, deletes the unmatched originals, sums the quantities and sends the attribute-value references |
| FormSave.OtherFieldsPassThrough | src/components/product/form-utils.ts:345-363 | every form field the function does not take apart or write reaches the payload unchanged |
| FormSave.SaveEncodedIdValues | src/components/product/form-utils.ts:396-399 | saving stored `{id, value}` pairs gives their id references in order |
| FormSave.SaveEncodedFormatted | src/components/product/form-utils.ts:396-399 | saving the stored groups gives the references of every pair, group by group |
| FormSave.FlatRefsOfGroups | src/components/product/form-utils.ts:396-399 | the groups' references in key order are the references of the grouped values |
| FormSave.FormattedRefs | src/components/product/form-utils.ts:66-74 | the references of the formatted variations are those of the grouped values |
| FormSave.LoadedVariationsSaveEveryValue | src/components/product/form-utils.ts:396-399 | saving unedited loaded variations references every original attribute value exactly as often as it occurs: grouping changes only the order |
| Seqs.MapPermutation | src/components/product/form-utils.ts:396-399 | mapping a permutation gives a permutation of the mapped values |
| Sorting.SortPermutes | src/pages/shops/index.tsx:51-62 | sorting a copy with any comparator neither drops nor duplicates an element |
| Sorting.SortSorts | src/pages/shops/index.tsx:51-62 | under a comparator that is a total preorder on the input, the sorted copy is in order |
| Sorting.InsertPermutes | src/pages/shops/index.tsx:51-62 | one insertion adds exactly the inserted element |
| Sorting.InsertSorted | src/pages/shops/index.tsx:51-62 | inserting into a sorted list keeps it sorted under a total preorder |
| CategoryPicker.Remove | src/components/product/product-category-input.tsx:52-59 | `delete` keeps exactly the other values |
| CategoryPicker.RemoveKeepsNoDup | src/components/product/product-category-input.tsx:52-59 | deleting keeps the set duplicate-free |
| CategoryPicker.RemoveLast | src/components/product/product-category-input.tsx:52-59 | deleting a value just added restores the list |
| CategoryPicker.ToggleSet | src/components/product/product-category-input.tsx:52-59 | the toggled value is present iff it was absent; every other value and duplicate-freedom are kept |
| CategoryPicker.ToggleTwice | src/components/product/product-category-input.tsx:52-59 | toggling twice restores the set, and the very list when the value was absent |
| CategoryPicker.Dedupe | src/components/product/product-category-input.tsx:150-153 | `new Set(list)` holds each value once and exactly the values of the list |
| CategoryPicker.DedupeOfNoDup | src/components/product/product-category-input.tsx:150-153 | a duplicate-free list is unchanged |
| CategoryPicker.HandleCategoryClick | src/components/product/product-category-input.tsx:61-93 | selects the category, empties both sub-selection lists, blanks both loaded lists while the sub-categories load, and keeps the picker valid and open |
| CategoryPicker.HandleSubCategoryClick | src/components/product/product-category-input.tsx:95-99 | toggles the sub-category; its third-level list is loaded iff it became selected; the other selections stay |
| CategoryPicker.HandleSubSubCategoryClick | src/components/product/product-category-input.tsx:101-103 | toggles the third-level id and leaves the other selections alone |
| CategoryPicker.ApplySelection | src/components/product/product-category-input.tsx:105-116 | writes one row and closes the panel, changing nothing else |
| CategoryPicker.IntsOf | src/components/product/product-category-input.tsx:122-128 | numbers without `NaN` read as the same integers, position by position |
| CategoryPicker.ParseIdsForSelection | src/components/product/product-category-input.tsx:122-128 | `undefined`, `null` and '' give no ids |
| CategoryPicker.ParseIdsForSelectionCases | src/components/product/product-category-input.tsx:122-128 | a string reads as its trimmed comma pieces, an array as its elements' numbers, a scalar as one number, `NaN` dropped each time |
| CategoryPicker.ParseWrittenIds | src/components/product/product-category-input.tsx:105-128 | a list written by `applySelection` parses back to the same ids |
| CategoryPicker.SyncFromRow | src/components/product/product-category-input.tsx:130-155 | clears exactly when the row's category is missing, `null` or zero |
| CategoryPicker.ApplySync | src/components/product/product-category-input.tsx:131-154 | a clear empties the selection; a select restores the category and both id sets |
| CategoryPicker.MissingCategoryClears | src/components/product/product-category-input.tsx:131-139 | a row without a category, or with category 0, clears the picker |
| CategoryPicker.SyncOfSelectionRow | src/components/product/product-category-input.tsx:105-155 | the row `applySelection` writes syncs back to the same selection |
| CategoryPicker.ApplyThenSyncRestores | src/components/product/product-category-input.tsx:105-155 | applying and syncing back restores the category and both selections in the same order |
| CategoryPicker.KeepFirst | src/components/product/product-category-input.tsx:168-176 | keeps only usable items whose id was not seen before |
| CategoryPicker.KeepFirstDistinct | src/components/product/product-category-input.tsx:168-176 | the merged list's ids are distinct |
| CategoryPicker.KeepFirstComplete | src/components/product/product-category-input.tsx:168-176 | the first usable item carrying an unseen id is kept |
| CategoryPicker.MergedListIsFirstPerId | src/components/product/product-category-input.tsx:168-176 | the merged third-level list holds exactly the first usable item for each id |
| ShopsPage.HandleSearch | src/pages/shops/index.tsx:69-72 | sets the search and goes to page 1, keeping the filters |
| ShopsPage.HandlePagination | src/pages/shops/index.tsx:74-76 | sets the page only |
| ShopsPage.HandleFilterChange | src/pages/shops/index.tsx:78-81 | replaces the filters and goes to page 1, keeping the search |
| ShopsPage.HandleFilterReset | src/pages/shops/index.tsx:83-86 | restores the default filters and page 1, keeping the search |
| ShopsPage.ResetForgetsFilterChanges | src/pages/shops/index.tsx:18-23 | a reset after any filter change equals a fresh page with the same search |
| ShopsPage.QueryParams | src/pages/shops/index.tsx:32-40 | `is_active` is sent iff the status is a boolean, with that boolean; name and page are the state's |
| ShopsPage.ShownShops | src/pages/shops/index.tsx:42-63 | the memo throws iff the list holds `null` and either a boolean status is set or the list has two or more entries; otherwise the shown list permutes the filtered one, and holds `null` only as its single entry |
| ShopsPage.ActiveFilterKeepsExactly | src/pages/shops/index.tsx:42-48 | with a boolean status exactly the shops whose `is_active` reads as it are kept; otherwise none is dropped |
| ShopsPage.VisibleIsPermutation | src/pages/shops/index.tsx:42-62 | the shown list is a permutation of the filtered list |
| ShopsPage.NullKeysOrdering | src/pages/shops/index.tsx:51-62 | two missing keys compare equal; a missing key sorts last ascending and first descending |
| ShopsPage.MixedKeysCompareEqual | src/pages/shops/index.tsx:51-62 | numbers compare by their difference in the chosen direction; every other pair of present keys that are not both strings compares equal (mixed types either way round, booleans, objects, `NaN` against a number) |
| ShopsPage.NumericOrderIsPreorder | src/pages/shops/index.tsx:51-62 | on a numeric column the comparator is a total preorder |
| ShopsPage.NumericPair | src/pages/shops/index.tsx:51-62 | two numeric keys the comparator does not reverse are in the page's order |
| ShopsPage.SortedNumericInOrder | src/pages/shops/index.tsx:51-62 | a list sorted by a numeric column is in the page's order |
| ShopsPage.NumericColumnOrder | src/pages/shops/index.tsx:42-62 | on a numeric column the shown list is in order, with missing keys at the end ascending and at the front descending |
| ShopsPage.TextOrderIsPreorder | src/pages/shops/index.tsx:51-62 | on a text column, with a consistent `localeCompare`, the comparator is a total preorder |
| ShopsPage.TextColumnSorted | src/pages/shops/index.tsx:42-62 | on a text column, with a consistent `localeCompare`, the shown list is sorted by the page's comparator |
| ShopsFilter.StatusValue | src/components/shop/shops-advanced-filter.tsx:57-62 | the encoded status is one of the select's options, and is '' iff the status is not a boolean |
| ShopsFilter.DecodeStatus | src/components/shop/shops-advanced-filter.tsx:144-150 | the stored status is never `null` |
| ShopsFilter.StatusRoundTrip | src/components/shop/shops-advanced-filter.tsx:57-150 | decoding the encoded status gives it back, except that `null` comes back as `undefined`; any other option and a cleared select give `false` |
| ShopsFilter.FindOrFirst | src/components/shop/shops-advanced-filter.tsx:97-101 | the matching option when there is one, the first option otherwise |
| ShopsFilter.SelectedStatus | src/components/shop/shops-advanced-filter.tsx:97 | the status select always shows the encoded status |
| ShopsFilter.SelectedFallbacks | src/components/shop/shops-advanced-filter.tsx:98-101 | an unknown sort column or page size shows the first option; the order select shows the current order |
| ShopsFilter.OnStatusChange | src/components/shop/shops-advanced-filter.tsx:144-150 | stores the decoded status |
| ShopsFilter.OnSortChange | src/components/shop/shops-advanced-filter.tsx:167-169 | changes the values only when an option was chosen |
| ShopsFilter.OnOrderChange | src/components/shop/shops-advanced-filter.tsx:186-188 | changes the values only when an option was chosen |
| ShopsFilter.OnLimitChange | src/components/shop/shops-advanced-filter.tsx:205-206 | changes the values only when an option was chosen |
| ShopsFilter.OnChangeReplacesOneField | src/components/shop/shops-advanced-filter.tsx:144-206 | each handler replaces its own field with the chosen value and leaves the other three as they were |
| ShopClient.GetShop | src/data/client/shop.ts:16-20 | `with` is sent iff it is truthy, with its value, and nothing else is sent |
| ShopClient.Copied | src/data/client/shop.ts:30-42 | the options not taken apart are copied, over the defaults `searchJoin: 'and'` and `with: 'logo;cover_image'` |
| ShopClient.Ordered | src/data/client/shop.ts:30-42 | limit, page, order and direction take the option or the defaults 15, 1, 'created_at', 'desc'; both spellings of the ordering agree |
| ShopClient.PaginatedKeepsOrdered | src/data/client/shop.ts:21-50 | only `is_active` and `search` are written after the ordered parameters |
| ShopClient.PaginatedDefaults | src/data/client/shop.ts:30-42 | absent paging and ordering options take the defaults |
| ShopClient.OrderSpellingsAgree | src/data/client/shop.ts:36-41 | `orderBy` equals `order_by` and `sortedBy` equals `sort` |
| ShopClient.FiltersSentWhenGiven | src/data/client/shop.ts:43-48 | `is_active` is sent iff it is given and not `null`; `search` is the formatted name iff the name is non-blank |
| ShopClient.OtherOptionsCopied | src/data/client/shop.ts:21-50 | every other option is copied unchanged, and the two defaults stay unless an option replaces them |
| Withdrawals.Sent | src/pages/withdrawals/withdrawals.tsx:95-115 | no more parameters are appended than considered |
| Withdrawals.StatusNames | src/pages/withdrawals/withdrawals.tsx:102 | each selected status as its name, in order |
| Withdrawals.LookupSent | src/pages/withdrawals/withdrawals.tsx:95-115 | among distinct keys, a key reads as its value iff its condition held |
| Withdrawals.LookupAbsent | src/pages/withdrawals/withdrawals.tsx:95-115 | a key no parameter has reads as absent |
| Withdrawals.BuildQueryParts | src/pages/withdrawals/withdrawals.tsx:95-115 | `page` and `limit` are always sent, every other parameter exactly when its filter is set, with its value |
| Withdrawals.DatePartsChain | src/pages/withdrawals/withdrawals.tsx:104-106 | a day is only sent with month and year, a month only with a year; the year is sent iff it is set |
| Withdrawals.StatusParameterRoundTrip | src/pages/withdrawals/withdrawals.tsx:102 | the status parameter split at its commas gives the selected statuses in selection order |
| Withdrawals.ToggleStatus | src/pages/withdrawals/withdrawals.tsx:87-92 | the status is selected iff it was not; every other status is kept; the page returns to 1 and nothing else changes |
| Withdrawals.Without | src/pages/withdrawals/withdrawals.tsx:90 | keeps exactly the other statuses |
| Withdrawals.WithoutAbsentAppended | src/pages/withdrawals/withdrawals.tsx:90 | removing a status just appended restores the list |
| Withdrawals.ToggleTwice | src/pages/withdrawals/withdrawals.tsx:87-92 | toggling twice restores the selection as a set, and the very list when the status was absent |
| Withdrawals.HandleJump | src/pages/withdrawals/withdrawals.tsx:225-230 | only the page changes, and only to an existing page |
| Withdrawals.JumpCases | src/pages/withdrawals/withdrawals.tsx:225-230 | a page number in range, typed or numeric, is reached; out of range, empty or missing input leaves the state alone |
| ShopPreview.Base | src/components/shop/shop-preview-view.tsx:17-19 | the endpoint without one trailing '/', and otherwise unchanged |
| ShopPreview.AbsoluteJoinsWithOneSlash | src/components/shop/shop-preview-view.tsx:43-49 | an `http…` URL is kept; any other is the base, one '/', and the URL without its leading '/' |
| ShopPreview.AbsoluteIdempotent | src/components/shop/shop-preview-view.tsx:43-49 | with an empty or `http…` base, making a URL absolute twice changes nothing more |
| ShopPreview.ToAbsoluteUrl | src/components/shop/shop-preview-view.tsx:43-49 | the result is empty iff the URL is |
| ShopPreview.LogoCandidates | src/components/shop/shop-preview-view.tsx:25-35 | the ten places tried, in order: `logo_image_url`, a string `logo`, the logo's thumbnail, original and url, `logo_thumbnail`, `logo_original`, `logo_url`, `image_url`, then `null`; an empty shop offers nothing but nullish values |
| ShopPreview.SameLogoChosen | src/components/shop/shop-logo-table-cell.tsx:10-29 | the table cell and the preview pick the same logo URL from a shop |
| ShopPreview.CoalesceFlatten | src/components/shop/shop-preview-view.tsx:25-35 | a nested `??` chain in front of more operands reads as one chain |
| ShopPreview.PreviewLogoPreference | src/components/shop/shop-preview-view.tsx:25-35 | the first candidate that is neither `null` nor `undefined` is chosen |
| ShopPreview.Resolve | src/components/shop/shop-preview-view.tsx:36-40 | a falsy URL or the placeholder gives none; a non-string URL throws, and only then; any other string is made absolute |
| ShopPreview.GetLogoUrl | src/components/shop/shop-preview-view.tsx:21-41 | no shop, or no usable URL, gives the placeholder; otherwise the absolute URL |
| ShopPreview.GetLogoUrlFromRecord | src/components/shop/shop-logo-table-cell.tsx:10-29 | no usable URL gives `null`; a usable string URL gives the absolute URL; it throws iff the chosen URL is a truthy non-string |
| ShopPreview.CellLogoUrl | src/components/shop/shop-logo-table-cell.tsx:45-50 | the record's URL wins over the detail's |
| ShopPreview.CellResolvedUrl | src/components/shop/shop-logo-table-cell.tsx:52-58 | the shown URL is the placeholder when no logo is found, else the absolute URL of the found string; it throws iff the found URL is a truthy non-string |
| ShopPreview.CellPrefersRecord | src/components/shop/shop-logo-table-cell.tsx:45-58 | a URL found on the record is shown whatever the detail says |
| ShopPreview.NormalizeDocuments | src/components/shop/shop-preview-view.tsx:51-59 | no shop gives no documents |
| ShopPreview.DocumentsUnwrapped | src/components/shop/shop-preview-view.tsx:51-59 | documents bare or wrapped in `{data: …}` read the same; anything else reads as none |
| ShopPreview.Present | src/components/shop/shop-preview-view.tsx:95-101 | `filter(Boolean)` keeps only truthy parts |
| ShopPreview.PresentKeepsTruthy | src/components/shop/shop-preview-view.tsx:95-101 | a part is kept iff it is truthy; none kept iff none is truthy |
| ShopPreview.Indented | src/components/shop/shop-preview-view.tsx:101 | each part with a leading space |
| ShopPreview.JoinIndented | src/components/shop/shop-preview-view.tsx:101 | joining with ", " after a space equals joining the indented parts with "," |
| ShopPreview.AddressReadsBack | src/components/shop/shop-preview-view.tsx:95-102 | with comma-free present parts, splitting the address at commas gives the first part and then the others, each behind one space |
| ShopPreview.AddressEdgeCases | src/components/shop/shop-preview-view.tsx:95-102 | no part present gives the dash; an empty shop country is not a part |
| ProductClient.NormalizeProductResponse | src/data/client/product.ts:18-32 | a non-object reply gives the fallback; the result keeps every fallback key |
| ProductClient.NormalizeCases | src/data/client/product.ts:18-32 | an object under `data` is laid over the fallback; any other object reply is itself laid over it; the reply's fields win |
| ProductClient.UpdateRequest | src/data/client/product.ts:15-45 | the payload sent holds exactly the keys other than `id` and `variations`, with their values |
| ProductClient.IdentityOf | src/data/client/product.ts:36-45 | `{id, slug}` of the payload, without other keys |
| ProductClient.Update | src/data/client/product.ts:36-45 | a non-object reply keeps the payload's id and slug |
| ProductClient.UpdateKeepsIdentity | src/data/client/product.ts:18-45 | a reply not mentioning the id or slug keeps the payload's, bare or wrapped in `data` |
| Notifications.KnownTitlesNonEmpty | src/components/notifications/notifications.tsx:108-135 | every known title key has a non-empty title |
| Notifications.TitleCases | src/components/notifications/notifications.tsx:108-135 | a given title is shown as is; else a known key gives its title and an unknown key itself; the title is empty iff neither is given |
| Notifications.MessageCases | src/components/notifications/notifications.tsx:137-161 | a given message is shown as is; else no key gives '', an unknown key itself, a known key its filled template |
| Notifications.MessageParameterReadsBack | src/components/notifications/notifications.tsx:137-161 | the parameter can be read back from a filled template |
| Notifications.UnreadCount | src/components/notifications/notifications.tsx:208 | at most the number of notifications, and zero iff none is unread |
| Notifications.MarkRead | src/components/notifications/notifications.tsx:227-229 | the entries with the clicked id become read; the others are unchanged |
| Notifications.OnNotifClick | src/components/notifications/notifications.tsx:224-230 | every entry whose id is strictly equal to the clicked one is read afterwards |
| Notifications.MarkReadCount | src/components/notifications/notifications.tsx:208-229 | the new unread count plus the newly read entries is the old count |
| Notifications.ClickLowersCount | src/components/notifications/notifications.tsx:208-230 | a click lowers the count by the unread entries with that id, and strictly when the clicked one was unread |
| Notifications.MissingIdsMatch | src/components/notifications/notifications.tsx:224-230 | clicking a notification without id marks every notification without id |
| Notifications.Badge | src/components/notifications/notifications.tsx:241-246 | the badge is shown iff the count is positive, with one to three characters, and reads "99+" above 99 |
| Notifications.BadgeReadsBack | src/components/notifications/notifications.tsx:241-246 | up to 99 the badge reads back as the count |
| Auth.AccessOrder | src/lib/auth.ts:2-10 | an admin always gets in; anyone else is kept out of admin-only pages and let into pages needing no permission |
| Auth.SomeIncludedList | src/lib/auth.ts:12 | with a permission list, access iff some required permission is in it |
| Auth.SomeIncludedString | src/lib/auth.ts:12 | with a permission string, access iff some required permission is a substring of it |
| Auth.SomeIncludedOtherwise | src/lib/auth.ts:12 | no permissions deny access; permissions of another kind throw |
| Auth.PermissionAccess | src/lib/auth.ts:2-12 | a non-admin on a permission page gets in iff a required permission is in their list |
| Auth.NullUserThrows | src/lib/auth.ts:4-12 | a stored `null` throws; nothing stored reads as a user without role or permissions |
| Js.CoalesceIsFirstDefined | src/components/shop/shop-preview-view.tsx:25-35 | `??` yields the first operand that is neither `null` nor `undefined`, else the last |
| Js.Trim | src/data/client/shop.ts:46 | the trimmed string has no white space at either end, white space being every ECMAScript white-space and line-terminator character |
| Js.TrimRemovesEdges | src/data/client/shop.ts:46 | trimming removes white space only, and only at the two ends |
| Js.Split | src/components/product/product-category-input.tsx:124 | at least one piece, none containing the separator, joined back the pieces give the input |
| Js.SplitJoin | src/pages/withdrawals/withdrawals.tsx:102 | pieces without the separator, joined then split, come back |
| Js.NatToString | src/components/product/form-utils.ts:371 | decimal text is non-empty and all digits |
| Js.DigitsOfNat | src/components/product/form-utils.ts:371 | the decimal text of a number reads back as that number |
| Js.IntToStringRoundTrip | src/pages/withdrawals/withdrawals.tsx:225-230 | `Number(String(i))` is `i` for every integer |
| Js.SetField | src/data/client/product.ts:36-45 | assigning a value sets one key and removes it for `undefined`, leaving the others |

## Left out

- Rendering, React state hooks, routing, toasts and translations: the
  model keeps the state each handler computes.
- Network calls and `async`/loading flags: each client function returns the
  path and parameters it would send, and replies are parameters.
- `JSON.parse`, `localeCompare`, `HttpClient.formatSearchParams`,
  `localStorage`, the REST endpoint and the placeholder path are
  parameters.
- Floating-point numbers: prices, quantities and ids are integers, and
  `Number()` reads integer numerals only (no decimals, exponents, hex or
  `Infinity`).
- `URLSearchParams` percent-encoding: a query is its ordered list of
  entries.
- lodash `groupBy` orders integer-like keys first in `Object.values`; the
  model uses first-occurrence order, which is what attribute slugs give.
- FormVariations.GetFormattedVariations: an object with two or more
  properties, passed as the variations, is grouped by lodash over its
  property values in property order; the model's objects keep no property
  order, so such an object gives no entries here. Arrays, strings,
  one-property objects and the array-like `{length: n}` are modelled; an
  object with more properties and a valid `length` is array-like too, and
  is likewise left out.
- `undefined` elements of a sent array are sent as `null`, the way
  `JSON.stringify` writes them.
- `cloneDeep` has no observable effect on immutable values.
- `cartesian` (`@/utils/cartesian`) is not part of this model. It is taken
  as the n-ary cartesian product in which the first group varies slowest.
- `omitTypename` (`@/utils/omit-typename`) is not part of this model.
  `Js.OmitTypename` takes it as removing every `__typename` property at any
  depth, through arrays and objects, and leaving other values unchanged;
  `Js.OmitTypenameOf` passes `undefined` through, which the save direction
  relies on for an absent image.
- FormPricing.CalculateMinMaxPrice: stated for options whose price, sale
  price and quantity are numbers or absent, as the form's `Variation` type
  declares them; other values are not compared.
- FormSave.GetProductInputValues: the same narrowing applies to the edited
  options.
- FormLoad.FindProductType: `ProductType` is taken as the string enum with
  the values 'simple' and 'variable'.
- Notifications: `null` entries of the list are not modelled.
- Notifications.OnNotifClick: the panel never attaches the handler (its
  `onClick` sits in a comment in the list item), so no click marks an
  entry read in the page as written; the handler and its count lemmas
  describe what it does when called.
- Notifications: `loadNotifications` and the mark-as-read request are not
  modelled.
- ProductClient.IdentityOf: a payload without `slug` is modelled as
  having no `slug` key.
- The rest of the shop client (`newOrInActiveShops`, `approve`,
  `disapprove`, …) only forwards requests, so it is not modelled.
- Console logging is not modelled.
