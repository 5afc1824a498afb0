/**
 * The pure part of the product category picker
 * (product-category-input.tsx): the selection state, the click handlers,
 * the row `applySelection` writes into the form, the selection
 * `syncFromRow` restores from a row, and the merged sub-sub-category list.
 *
 * A JS `Set<number>` is a duplicate-free sequence in insertion order, which
 * is the order `Array.from` lists it in. The fetches the handlers start are
 * not modelled; a handler reports the id it would load.
 */
module CategoryPicker {
  import opened Wrappers
  import opened Js
  import FormCategories
  import Seqs

  predicate NoDup(s: seq<int>)
  {
    forall i, j :: 0 <= i < j < |s| ==> s[i] != s[j]
  }

  /** The picker's state; `None` stands for a list that is `null` while it
      loads. */
  datatype Picker = Picker(
    selectedCategory: Option<JsNumber>,
    subCategories: Option<seq<Json>>,
    subSubCategories: Option<seq<Json>>,
    selectedSubs: seq<int>,
    selectedSubSubs: seq<int>,
    open: bool)

  predicate Valid(p: Picker)
  {
    NoDup(p.selectedSubs) && NoDup(p.selectedSubSubs)
  }

  /* ---------------------------------------------------------------- */
  /* Sets                                                             */
  /* ---------------------------------------------------------------- */

  /** `set.delete(v)`: the other elements keep their order. */
  function Remove(s: seq<int>, v: int): (r: seq<int>)
    ensures forall w :: w in r <==> w in s && w != v
    ensures |r| <= |s|
  {
    if |s| == 0 then [] else (if s[0] == v then [] else [s[0]]) + Remove(s[1..], v)
  }

  lemma {:induction false} RemoveKeepsNoDup(s: seq<int>, v: int)
    requires NoDup(s)
    ensures NoDup(Remove(s, v))
  {
    if |s| > 0 {
      RemoveKeepsNoDup(s[1..], v);
      assert s[0] !in s[1..];
    }
  }

  lemma {:induction false} RemoveAbsent(s: seq<int>, v: int)
    requires v !in s
    ensures Remove(s, v) == s
  {
    if |s| > 0 {
      RemoveAbsent(s[1..], v);
    }
  }

  lemma {:induction false} RemoveLast(s: seq<int>, v: int)
    requires v !in s
    ensures Remove(s + [v], v) == s
  {
    if |s| == 0 {
      assert s + [v] == [v];
    } else {
      assert (s + [v])[1..] == s[1..] + [v];
      RemoveLast(s[1..], v);
    }
  }

  /** `toggleSet(v)`: delete a present value, add an absent one at the end. */
  function ToggleSet(s: seq<int>, v: int): (r: seq<int>)
    requires NoDup(s)
    ensures NoDup(r)
    ensures v in r <==> v !in s
    ensures forall w :: w != v ==> (w in r <==> w in s)
  {
    RemoveKeepsNoDup(s, v);
    if v in s then Remove(s, v) else s + [v]
  }

  /** Toggling the same value twice restores the set; when the value was
      absent it restores the very list. */
  lemma ToggleTwice(s: seq<int>, v: int)
    requires NoDup(s)
    ensures forall w :: w in ToggleSet(ToggleSet(s, v), v) <==> w in s
    ensures v !in s ==> ToggleSet(ToggleSet(s, v), v) == s
  {
    if v !in s {
      RemoveLast(s, v);
    }
  }

  /** `new Set(list)` listed again: the first occurrence of every value, in
      order. */
  function Dedupe(xs: seq<int>): (r: seq<int>)
    ensures NoDup(r)
    ensures forall w :: w in r <==> w in xs
    decreases |xs|
  {
    if |xs| == 0 then []
    else
      var p := Dedupe(xs[..|xs| - 1]);
      assert forall w :: w in xs <==> w in xs[..|xs| - 1] || w == xs[|xs| - 1];
      if xs[|xs| - 1] in p then p else p + [xs[|xs| - 1]]
  }

  lemma {:induction false} DedupeOfNoDup(xs: seq<int>)
    requires NoDup(xs)
    ensures Dedupe(xs) == xs
  {
    if |xs| > 0 {
      var p := xs[..|xs| - 1];
      DedupeOfNoDup(p);
      assert xs[|xs| - 1] !in p;
      assert p + [xs[|xs| - 1]] == xs;
    }
  }

  /* ---------------------------------------------------------------- */
  /* Handlers                                                         */
  /* ---------------------------------------------------------------- */

  /** `handleCategoryClick(catId)`: select the category, clear both
      selections, and blank both lists while the sub-categories load. */
  function HandleCategoryClick(p: Picker, catId: int): (r: Picker)
    ensures Valid(r)
    ensures r.selectedCategory == Some(Int(catId)) && r.open == p.open
    ensures r.selectedSubs == [] && r.selectedSubSubs == []
    ensures r.subCategories.None? && r.subSubCategories.None?
  {
    Picker(Some(Int(catId)), None, None, [], [], p.open)
  }

  /** `handleSubCategoryClick(subId)`: toggle the sub-category and blank the
      sub-sub list; the sub-sub categories are loaded, reported as
      `Some(subId)`, when the click selects it. */
  function HandleSubCategoryClick(p: Picker, subId: int): (r: (Picker, Option<int>))
    requires Valid(p)
    ensures Valid(r.0)
    ensures r.1 == Some(subId) <==> subId in r.0.selectedSubs
    ensures r.1.None? <==> subId in p.selectedSubs
    ensures r.0.subSubCategories.None?
    ensures r.0.selectedCategory == p.selectedCategory && r.0.selectedSubSubs == p.selectedSubSubs
  {
    var q := p.(selectedSubs := ToggleSet(p.selectedSubs, subId), subSubCategories := None);
    if subId !in p.selectedSubs then (q, Some(subId)) else (q, None)
  }

  /** `handleSubSubCategoryClick(subSubId)`. */
  function HandleSubSubCategoryClick(p: Picker, subSubId: int): (r: Picker)
    requires Valid(p)
    ensures Valid(r)
    ensures subSubId in r.selectedSubSubs <==> subSubId !in p.selectedSubSubs
    ensures r.selectedSubs == p.selectedSubs && r.selectedCategory == p.selectedCategory
  {
    p.(selectedSubSubs := ToggleSet(p.selectedSubSubs, subSubId))
  }

  function IntsAsJson(s: seq<int>): seq<Json>
  {
    seq(|s|, i requires 0 <= i < |s| => JNum(s[i]))
  }

  /** The one row `applySelection` writes: the selected category (`null`
      when there is none) and both sets as lists. */
  function SelectionRow(p: Picker): Json
  {
    var cat := if p.selectedCategory.Some? then FromNumber(p.selectedCategory.value) else JNull;
    JObj(map["categories_id" := cat, "sous_categories_id" := JArr(IntsAsJson(p.selectedSubs)),
             "sub_categories_id" := JArr(IntsAsJson(p.selectedSubSubs))])
  }

  /** `applySelection()`: the new form value of `categories` and the closed
      panel. */
  function ApplySelection(p: Picker): (r: (Json, Picker))
    ensures r.0.JArr? && |r.0.items| == 1
    ensures !r.1.open && r.1 == p.(open := false)
  {
    (JArr([SelectionRow(p)]), p.(open := false))
  }

  /* ---------------------------------------------------------------- */
  /* Restoring the selection from a row                               */
  /* ---------------------------------------------------------------- */

  /** `Number` values without `NaN` as integers. */
  function IntsOf(ns: seq<JsNumber>): (r: seq<int>)
    requires FormCategories.NoNaN(ns)
    ensures |r| == |ns|
    ensures forall i :: 0 <= i < |ns| ==> ns[i] == Int(r[i])
  {
    if |ns| == 0 then [] else [ns[0].i] + IntsOf(ns[1..])
  }

  /** `parseIdsForSelection(v)`, which reads ids exactly as the form's
      `parseIdsProduct` does (form-utils.ts:168-173). */
  function ParseIdsForSelection(v: Option<Json>): (r: seq<int>)
    ensures v == None || v == Some(JNull) || v == Some(JStr("")) ==> r == []
  {
    IntsOf(FormCategories.ParseProductIds(v))
  }

  /** `Number(x)` of a whole element. */
  function NumberOf(x: Json): JsNumber
  {
    ToNumber(Some(x))
  }

  /** An array reads as the numbers of its elements with `NaN` dropped. */
  lemma {:induction false} ArrayReadsAsNumbers(xs: seq<Json>)
    ensures FormCategories.WholeIds(xs) == FormCategories.DropNaN(Seqs.Map(NumberOf, xs))
  {
    if |xs| > 0 {
      ArrayReadsAsNumbers(xs[1..]);
    }
  }

  /** A non-empty string reads as its trimmed comma-separated pieces, an
      array as the numbers of its elements and any other scalar as its
      one number, with `NaN` dropped each time. */
  lemma ParseIdsForSelectionCases(v: Json)
    ensures v.JStr? && v.s != "" ==>
              ParseIdsForSelection(Some(v)) == IntsOf(FormCategories.DropNaN(FormCategories.CsvNumbers(v.s)))
    ensures v.JArr? ==> ParseIdsForSelection(Some(v)) == IntsOf(FormCategories.DropNaN(Seqs.Map(NumberOf, v.items)))
    ensures !v.JArr? && !v.JStr? && v != JNull ==>
              ParseIdsForSelection(Some(v)) == (if ToNumber(Some(v)).NaN? then [] else [ToNumber(Some(v)).i])
  {
    if v.JArr? {
      ArrayIds(v.items);
    } else if v.JStr? {
      if v.s != "" {
        StringIds(v.s);
      }
    } else if v != JNull {
      ScalarIds(v);
    }
  }

  lemma ArrayIds(xs: seq<Json>)
    ensures ParseIdsForSelection(Some(JArr(xs))) == IntsOf(FormCategories.DropNaN(Seqs.Map(NumberOf, xs)))
  {
    ArrayReadsAsNumbers(xs);
    assert FormCategories.ParseProductIds(Some(JArr(xs))) == FormCategories.WholeIds(xs);
  }

  lemma StringIds(s: string)
    requires s != ""
    ensures ParseIdsForSelection(Some(JStr(s))) == IntsOf(FormCategories.DropNaN(FormCategories.CsvNumbers(s)))
  {
    var v := Some(JStr(s));
    assert !Nullish(v) && v != Some(JStr(""));
    var ns := FormCategories.CsvNumbers(s);
    assert FormCategories.ParseProductIds(v) == FormCategories.DropNaN(ns);
  }

  lemma ScalarIds(v: Json)
    requires !v.JArr? && !v.JStr? && v != JNull
    ensures ParseIdsForSelection(Some(v)) == (if ToNumber(Some(v)).NaN? then [] else [ToNumber(Some(v)).i])
  {
    var n := ToNumber(Some(v));
    assert FormCategories.ParseProductIds(Some(v)) == FormCategories.DropNaN([n]);
    assert FormCategories.DropNaN([n]) == if n.NaN? then [] else [n] by {
      assert [n][1..] == [];
    }
  }

  /** The numbers of a written list are its ids. */
  lemma {:induction false} WholeIdsOfWritten(s: seq<int>)
    ensures FormCategories.WholeIds(IntsAsJson(s)) == Seqs.Map(IntNumber, s)
  {
    if |s| > 0 {
      WholeIdsOfWritten(s[1..]);
      assert IntsAsJson(s)[1..] == IntsAsJson(s[1..]);
      assert ToNumber(Some(IntsAsJson(s)[0])) == Int(s[0]);
    }
  }

  lemma {:induction false} IntsOfNumbers(s: seq<int>)
    ensures FormCategories.NoNaN(Seqs.Map(IntNumber, s))
    ensures IntsOf(Seqs.Map(IntNumber, s)) == s
  {
    Seqs.MapAt(IntNumber, s);
    if |s| > 0 {
      IntsOfNumbers(s[1..]);
      assert Seqs.Map(IntNumber, s)[1..] == Seqs.Map(IntNumber, s[1..]);
    }
  }

  /** The list `applySelection` writes reads back as the same ids. */
  lemma ParseWrittenIds(s: seq<int>)
    ensures ParseIdsForSelection(Some(JArr(IntsAsJson(s)))) == s
  {
    WholeIdsOfWritten(s);
    IntsOfNumbers(s);
  }

  function IntNumber(i: int): JsNumber
  {
    Int(i)
  }

  /** What `syncFromRow` restores: nothing, or a category and the two
      selections. */
  datatype Sync = Clear | Select(category: JsNumber, sous: seq<int>, sub: seq<int>)

  /** `syncFromRow(first)`: a missing, `null` or zero category clears the
      selection; otherwise the category and the parsed id lists. */
  function SyncFromRow(first: Option<Json>): (r: Sync)
    ensures r.Clear? <==> Nullish(Get(first, "categories_id")) || ToNumber(Get(first, "categories_id")) == Int(0)
  {
    var raw := Get(first, "categories_id");
    if Nullish(raw) then Clear
    else
      var catId := ToNumber(raw);
      if catId == Int(0) then Clear
      else Select(catId, ParseIdsForSelection(Get(first, "sous_categories_id")),
                  ParseIdsForSelection(Get(first, "sub_categories_id")))
  }

  /** The picker once a sync completes: cleared, or the category with
      `new Set(...)` of each list. */
  function ApplySync(p: Picker, s: Sync): (r: Picker)
    ensures Valid(r)
    ensures s.Clear? ==> r.selectedCategory.None? && r.selectedSubs == [] && r.selectedSubSubs == []
    ensures s.Select? ==> r.selectedCategory == Some(s.category) &&
                          (forall w :: w in r.selectedSubs <==> w in s.sous) &&
                          (forall w :: w in r.selectedSubSubs <==> w in s.sub)
  {
    match s
    case Clear => Picker(None, None, None, [], [], p.open)
    case Select(cat, sous, sub) => p.(selectedCategory := Some(cat), selectedSubs := Dedupe(sous), selectedSubSubs := Dedupe(sub))
  }

  /** A row without a category, or with category 0, clears the picker. */
  lemma MissingCategoryClears(p: Picker, first: Option<Json>)
    requires Get(first, "categories_id") == None || Get(first, "categories_id") == Some(JNull) ||
             Get(first, "categories_id") == Some(JNum(0))
    ensures var r := ApplySync(p, SyncFromRow(first));
      r.selectedCategory.None? && r.subCategories.None? && r.subSubCategories.None? &&
      r.selectedSubs == [] && r.selectedSubSubs == []
  {
  }

  /** The row `applySelection` writes syncs back to its own selection. */
  lemma SyncOfSelectionRow(p: Picker)
    requires p.selectedCategory.Some? && p.selectedCategory.value.Int? && p.selectedCategory.value.i != 0
    ensures SyncFromRow(Some(SelectionRow(p))) == Select(p.selectedCategory.value, p.selectedSubs, p.selectedSubSubs)
  {
    var row := SelectionRow(p);
    ParseWrittenIds(p.selectedSubs);
    ParseWrittenIds(p.selectedSubSubs);
    assert Get(Some(row), "categories_id") == Some(JNum(p.selectedCategory.value.i));
    assert Get(Some(row), "sous_categories_id") == Some(JArr(IntsAsJson(p.selectedSubs)));
    assert Get(Some(row), "sub_categories_id") == Some(JArr(IntsAsJson(p.selectedSubSubs)));
  }

  /** Applying a selection and syncing from the written row restores the
      same category and the same two selections, in the same order. */
  lemma ApplyThenSyncRestores(p: Picker)
    requires Valid(p) && p.selectedCategory.Some? && p.selectedCategory.value.Int? && p.selectedCategory.value.i != 0
    ensures var row := ApplySelection(p).0.items[0];
      var r := ApplySync(p, SyncFromRow(Some(row)));
      r.selectedCategory == p.selectedCategory && r.selectedSubs == p.selectedSubs &&
      r.selectedSubSubs == p.selectedSubSubs
  {
    assert ApplySelection(p).0.items[0] == SelectionRow(p);
    SyncOfSelectionRow(p);
    DedupeOfNoDup(p.selectedSubs);
    DedupeOfNoDup(p.selectedSubSubs);
  }

  /* ---------------------------------------------------------------- */
  /* The merged sub-sub-category list (lines 168-176)                 */
  /* ---------------------------------------------------------------- */

  /** The id a loaded sub-sub category is known by. */
  function SubSubId(x: Json): JsNumber
  {
    ToNumber(Coalesce([Get(Some(x), "id"), Get(Some(x), "sub_category_id"), Get(Some(x), "sub_categories_id"),
                       Get(Get(Some(x), "attributes"), "id"), Some(JNum(0))]))
  }

  predicate Usable(x: Json)
  {
    SubSubId(x).Int? && SubSubId(x).i != 0
  }

  function Flatten(arrays: seq<seq<Json>>): seq<Json>
  {
    if |arrays| == 0 then [] else arrays[0] + Flatten(arrays[1..])
  }

  /** The filter with its `seen` set: keep an item whose id is usable and
      not seen yet. */
  function KeepFirst(xs: seq<Json>, seen: set<int>): (r: seq<Json>)
    ensures forall x :: x in r ==> x in xs && Usable(x) && SubSubId(x).i !in seen
    decreases |xs|
  {
    if |xs| == 0 then []
    else if Usable(xs[0]) && SubSubId(xs[0]).i !in seen then
      [xs[0]] + KeepFirst(xs[1..], seen + {SubSubId(xs[0]).i})
    else KeepFirst(xs[1..], seen)
  }

  /** `arrays.flat().filter(...)`. */
  function MergeSubSub(arrays: seq<seq<Json>>): seq<Json>
  {
    KeepFirst(Flatten(arrays), {})
  }

  predicate DistinctIds(r: seq<Json>)
  {
    forall i, j :: 0 <= i < j < |r| ==> SubSubId(r[i]) != SubSubId(r[j])
  }

  /** The ids of the kept items are distinct. */
  lemma {:induction false} KeepFirstDistinct(xs: seq<Json>, seen: set<int>)
    ensures DistinctIds(KeepFirst(xs, seen))
  {
    if |xs| > 0 {
      var x := xs[0];
      if Usable(x) && SubSubId(x).i !in seen {
        var rest := KeepFirst(xs[1..], seen + {SubSubId(x).i});
        KeepFirstDistinct(xs[1..], seen + {SubSubId(x).i});
        assert KeepFirst(xs, seen) == [x] + rest;
        assert forall j :: 0 <= j < |rest| ==> SubSubId(rest[j]) != SubSubId(x);
      } else {
        KeepFirstDistinct(xs[1..], seen);
        assert KeepFirst(xs, seen) == KeepFirst(xs[1..], seen);
      }
    }
  }

  /** Every usable id not seen before is kept: the merged list holds one
      item for each usable id of the loaded lists, and that item is the
      first one carrying it. */
  lemma {:induction false} KeepFirstComplete(xs: seq<Json>, seen: set<int>, i: nat)
    requires i < |xs| && Usable(xs[i]) && SubSubId(xs[i]).i !in seen
    requires forall j :: 0 <= j < i ==> SubSubId(xs[j]) != SubSubId(xs[i])
    ensures xs[i] in KeepFirst(xs, seen)
  {
    if i > 0 {
      var s' := if Usable(xs[0]) && SubSubId(xs[0]).i !in seen then seen + {SubSubId(xs[0]).i} else seen;
      KeepFirstComplete(xs[1..], s', i - 1);
    }
  }

  lemma MergedListIsFirstPerId(arrays: seq<seq<Json>>, i: nat)
    requires i < |Flatten(arrays)|
    ensures var xs, r := Flatten(arrays), MergeSubSub(arrays);
      && (forall x :: x in r ==> x in xs && Usable(x))
      && DistinctIds(r)
      && (Usable(xs[i]) && (forall j :: 0 <= j < i ==> SubSubId(xs[j]) != SubSubId(xs[i])) ==> xs[i] in r)
  {
    var xs := Flatten(arrays);
    KeepFirstDistinct(xs, {});
    if Usable(xs[i]) && (forall j :: 0 <= j < i ==> SubSubId(xs[j]) != SubSubId(xs[i])) {
      KeepFirstComplete(xs, {}, i);
    }
  }
}
