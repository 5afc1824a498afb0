/**
 * Variant expansion in the product form (form-utils.ts): grouping attribute
 * values by attribute slug (`getFormattedVariations`), hiding attributes that
 * already carry values (`filterAttributes`) and expanding the chosen values
 * into every combination (`getCartesianProduct`).
 *
 * lodash `groupBy` and the `cartesian` helper are specified here by their
 * observable behaviour: groups open in order of first occurrence and keep
 * their members in input order; the product lets the first group vary
 * slowest.
 */
module FormVariations {
  import opened Wrappers
  import opened Js

  /* ---------------------------------------------------------------- */
  /* Grouping by attribute slug (form-utils.ts:66-74)                 */
  /* ---------------------------------------------------------------- */

  /** The group key of a value: `String(get(x, 'attribute.slug'))`, so a
      missing slug gives the key "undefined". */
  function SlugKey(x: Json): string
  {
    StrOf(Get(Get(Some(x), "attribute"), "slug"))
  }

  /** Reference definition: the distinct keys of `xs` in order of first
      occurrence. */
  function Keys(xs: seq<Json>): seq<string>
  {
    if |xs| == 0 then []
    else
      var ks := Keys(xs[..|xs| - 1]);
      if SlugKey(xs[|xs| - 1]) in ks then ks else ks + [SlugKey(xs[|xs| - 1])]
  }

  /** Reference definition: the values of `xs` whose key is `k`, in input
      order. */
  function Members(xs: seq<Json>, k: string): seq<Json>
  {
    if |xs| == 0 then []
    else Members(xs[..|xs| - 1], k) + (if SlugKey(xs[|xs| - 1]) == k then [xs[|xs| - 1]] else [])
  }

  datatype Group = Group(key: string, members: seq<Json>)

  /** One step of `groupBy`: push the value onto the group of its key, or
      open a new group at the end when the key is new. */
  function AddToGroup(gs: seq<Group>, x: Json): (r: seq<Group>)
  {
    if |gs| == 0 then [Group(SlugKey(x), [x])]
    else if gs[0].key == SlugKey(x) then [gs[0].(members := gs[0].members + [x])] + gs[1..]
    else [gs[0]] + AddToGroup(gs[1..], x)
  }

  /** `groupBy(xs, 'attribute.slug')` followed by `Object.values`. */
  function GroupBy(xs: seq<Json>): seq<Group>
  {
    if |xs| == 0 then [] else AddToGroup(GroupBy(xs[..|xs| - 1]), xs[|xs| - 1])
  }

  predicate KeyedBy(gs: seq<Group>, ks: seq<string>)
  {
    |gs| == |ks| && forall i :: 0 <= i < |gs| ==> gs[i].key == ks[i]
  }

  predicate Distinct(ks: seq<string>)
  {
    forall i, j :: 0 <= i < j < |ks| ==> ks[i] != ks[j]
  }

  /** The groups seen by `AddToGroup`: a known key grows its own group and
      leaves the others alone; a new key opens a group at the end. */
  lemma {:induction false} AddToGroupEffect(gs: seq<Group>, ks: seq<string>, x: Json)
    requires KeyedBy(gs, ks) && Distinct(ks)
    ensures SlugKey(x) !in ks ==> AddToGroup(gs, x) == gs + [Group(SlugKey(x), [x])]
    ensures SlugKey(x) in ks ==>
              var r := AddToGroup(gs, x);
              KeyedBy(r, ks) &&
              forall i :: 0 <= i < |gs| ==> r[i].members == gs[i].members + (if ks[i] == SlugKey(x) then [x] else [])
  {
    if |gs| > 0 {
      AddToGroupEffect(gs[1..], ks[1..], x);
      assert ks == [ks[0]] + ks[1..];
      if ks[0] == SlugKey(x) {
        assert forall i :: 1 <= i < |ks| ==> ks[i] != SlugKey(x);
      }
    }
  }

  lemma {:induction false} KeysDistinct(xs: seq<Json>)
    ensures Distinct(Keys(xs))
  {
    if |xs| > 0 {
      KeysDistinct(xs[..|xs| - 1]);
    }
  }

  /** A key is listed exactly when some value carries it. */
  lemma {:induction false} KeysAreTheKeys(xs: seq<Json>, k: string)
    ensures k in Keys(xs) <==> |Members(xs, k)| > 0
  {
    if |xs| > 0 {
      KeysAreTheKeys(xs[..|xs| - 1], k);
    }
  }

  /** A value is in the group of key `k` exactly when it is in the input and
      its key is `k`. */
  lemma {:induction false} MembersAreTheValuesOfKey(xs: seq<Json>, k: string, x: Json)
    ensures x in Members(xs, k) <==> x in xs && SlugKey(x) == k
  {
    if |xs| > 0 {
      var p := xs[..|xs| - 1];
      MembersAreTheValuesOfKey(p, k, x);
      assert xs == p + [xs[|xs| - 1]];
    }
  }

  /** The grouping step builds exactly the reference groups: one group per
      distinct key, in order of first occurrence, holding the values of
      that key in input order. */
  lemma {:induction false} GroupByIsReference(xs: seq<Json>)
    ensures KeyedBy(GroupBy(xs), Keys(xs))
    ensures forall i :: 0 <= i < |GroupBy(xs)| ==> GroupBy(xs)[i].members == Members(xs, Keys(xs)[i])
  {
    if |xs| > 0 {
      var p, x := xs[..|xs| - 1], xs[|xs| - 1];
      GroupByIsReference(p);
      KeysDistinct(p);
      var ks := Keys(p);
      AddToGroupEffect(GroupBy(p), ks, x);
      if SlugKey(x) in ks {
        forall i | 0 <= i < |ks|
          ensures GroupBy(xs)[i].members == Members(xs, Keys(xs)[i])
        {
        }
      } else {
        KeysAreTheKeys(p, SlugKey(x));
        forall i | 0 <= i < |ks| + 1
          ensures GroupBy(xs)[i].members == Members(xs, Keys(xs)[i])
        {
        }
      }
    }
  }

  /** The concatenation of some groups, in the order of `ks`. */
  function FlatMembers(xs: seq<Json>, ks: seq<string>): seq<Json>
  {
    if |ks| == 0 then [] else Members(xs, ks[0]) + FlatMembers(xs, ks[1..])
  }

  lemma {:induction false} FlatMembersAppend(xs: seq<Json>, ks: seq<string>, k: string)
    ensures FlatMembers(xs, ks + [k]) == FlatMembers(xs, ks) + Members(xs, k)
  {
    if |ks| > 0 {
      assert (ks + [k])[1..] == ks[1..] + [k];
      FlatMembersAppend(xs, ks[1..], k);
    } else {
      assert ks + [k] == [k];
    }
  }

  /** Adding a value to the input adds it to the groups of distinct keys once
      when its key is among them, not at all otherwise. */
  lemma {:induction false} FlatMembersSnoc(xs: seq<Json>, x: Json, ks: seq<string>)
    requires Distinct(ks)
    ensures multiset(FlatMembers(xs + [x], ks)) ==
            multiset(FlatMembers(xs, ks)) + (if SlugKey(x) in ks then multiset{x} else multiset{})
  {
    var ys := xs + [x];
    assert ys[..|ys| - 1] == xs;
    if |ks| > 0 {
      FlatMembersSnoc(xs, x, ks[1..]);
      assert ks == [ks[0]] + ks[1..];
    }
  }

  /** `groupBy` is a partition: the groups together hold the input values,
      each as often as it occurs. */
  lemma {:induction false} GroupsPartitionInput(xs: seq<Json>)
    ensures multiset(FlatMembers(xs, Keys(xs))) == multiset(xs)
  {
    if |xs| > 0 {
      var p, x := xs[..|xs| - 1], xs[|xs| - 1];
      assert xs == p + [x];
      GroupsPartitionInput(p);
      KeysDistinct(p);
      FlatMembersSnoc(p, x, Keys(p));
      if SlugKey(x) !in Keys(p) {
        FlatMembersAppend(xs, Keys(p), SlugKey(x));
        KeysAreTheKeys(p, SlugKey(x));
        assert Members(xs, SlugKey(x)) == [x];
      }
    }
  }

  datatype IdValue = IdValue(id: Option<Json>, value: Option<Json>)
  datatype FormattedVariation = FormattedVariation(attribute: Option<Json>, values: seq<IdValue>)

  /** `vg.map((v) => ({ id: v.id, value: v.value }))`; `v.id` of `null`
      throws. */
  function IdValues(vs: seq<Json>): (r: Result<seq<IdValue>>)
    ensures r.TypeError? <==> JNull in vs
    ensures r.Ok? ==> |r.value| == |vs|
    ensures r.Ok? ==> forall i :: 0 <= i < |vs| ==> r.value[i] == IdValue(Get(Some(vs[i]), "id"), Get(Some(vs[i]), "value"))
  {
    if |vs| == 0 then Ok([])
    else if vs[0] == JNull then TypeError
    else
      var rest := IdValues(vs[1..]);
      assert vs == [vs[0]] + vs[1..];
      if rest.TypeError? then TypeError
      else Ok([IdValue(Get(Some(vs[0]), "id"), Get(Some(vs[0]), "value"))] + rest.value)
  }

  /** One formatted group: the attribute of its first value and the
      `{id, value}` pairs of all its values. */
  function FormatGroup(g: Group): Result<FormattedVariation>
  {
    var attribute := if |g.members| == 0 then None else Get(Some(g.members[0]), "attribute");
    var values := IdValues(g.members);
    if values.TypeError? then TypeError else Ok(FormattedVariation(attribute, values.value))
  }

  function FormatGroups(gs: seq<Group>): (r: Result<seq<FormattedVariation>>)
    ensures r.Ok? ==> |r.value| == |gs|
  {
    if |gs| == 0 then Ok([])
    else
      var first := FormatGroup(gs[0]);
      var rest := FormatGroups(gs[1..]);
      if first.TypeError? || rest.TypeError? then TypeError else Ok([first.value] + rest.value)
  }

  /** The one-character strings of `s`, as lodash reads a string's
      elements. */
  function Chars(s: string): (r: seq<Json>)
    ensures |r| == |s|
    ensures forall i :: 0 <= i < |s| ==> r[i] == JStr([s[i]])
  {
    if |s| == 0 then [] else [JStr([s[0]])] + Chars(s[1..])
  }

  /** A map of size one has one key. */
  lemma SingleKey(m: map<string, Json>)
    requires |m| == 1
    ensures forall a, b :: a in m && b in m ==> a == b
  {
    var k :| k in m;
    if exists b :: b in m && b != k {
      var b :| b in m && b != k;
      assert {k, b} <= m.Keys;
      assert |{k, b}| == 2;
      SubsetSize({k, b}, m.Keys);
    }
  }

  lemma SubsetSize(a: set<string>, b: set<string>)
    requires a <= b
    ensures |a| <= |b|
  {
    assert b == a + (b - a);
  }

  /** The values `groupBy` walks: the elements of an array, the characters
      of a string, the value of an object's one property; `null`,
      `undefined`, numbers and booleans have none. An object with more
      properties gives none here, since the model's objects keep no
      property order. */
  function VariationList(variations: Option<Json>): seq<Json>
  {
    if variations.None? then []
    else
      match variations.value
      case JArr(items) => items
      case JStr(s) => Chars(s)
      case JObj(m) =>
        if |m| == 1 then SingleKey(m); var k :| k in m; [m[k]] else []
      case _ => []
  }

  /** The largest integer lodash's `isLength` accepts. */
  function MaxSafeInteger(): int { 0x1F_FFFF_FFFF_FFFF }

  /** An object whose one property is `length`, holding a length lodash
      accepts: `groupBy` reads it as array-like, with `length` elements
      that are all `undefined`. */
  predicate LengthOnly(variations: Option<Json>)
  {
    variations.Some? && variations.value.JObj? && |variations.value.fields| == 1 &&
    "length" in variations.value.fields &&
    variations.value.fields["length"].JNum? && 0 <= variations.value.fields["length"].n <= MaxSafeInteger()
  }

  /** `getFormattedVariations(variations)`. For an array-like `{length: n}`
      the `undefined` elements all land in the group "undefined", whose
      `v.id` throws; with `n == 0` there is no group. */
  function GetFormattedVariations(variations: Option<Json>): Result<seq<FormattedVariation>>
  {
    if LengthOnly(variations) then
      if variations.value.fields["length"].n == 0 then Ok([]) else TypeError
    else FormatGroups(GroupBy(VariationList(variations)))
  }

  lemma {:induction false} FormatGroupsAt(gs: seq<Group>)
    ensures FormatGroups(gs).TypeError? <==> exists i :: 0 <= i < |gs| && JNull in gs[i].members
    ensures FormatGroups(gs).Ok? ==>
              forall i :: 0 <= i < |gs| ==> FormatGroup(gs[i]).Ok? && FormatGroups(gs).value[i] == FormatGroup(gs[i]).value
  {
    if |gs| > 0 {
      FormatGroupsAt(gs[1..]);
      if FormatGroups(gs).TypeError? && JNull !in gs[0].members {
        var i :| 0 <= i < |gs[1..]| && JNull in gs[1..][i].members;
        assert JNull in gs[i + 1].members;
      }
      if !FormatGroups(gs).TypeError? {
        forall i | 0 <= i < |gs| ensures JNull !in gs[i].members
        {
          if i > 0 {
            assert gs[i] == gs[1..][i - 1];
          }
        }
      }
    }
  }

  /** An array's elements are grouped as they are. */
  lemma ArrayVariations(xs: seq<Json>)
    ensures GetFormattedVariations(Some(JArr(xs))) == FormatGroups(GroupBy(xs))
  {
  }

  /** `getFormattedVariations` throws exactly when a value is `null`;
      otherwise it returns one entry per distinct slug, in order of first
      occurrence, whose attribute is that of the first value with the slug
      and whose pairs are the `{id, value}` of every value with the slug, in
      input order. */
  lemma FormattedVariationsAreGroups(xs: seq<Json>)
    ensures var r := GetFormattedVariations(Some(JArr(xs)));
      && (r.TypeError? <==> JNull in xs)
      && (r.Ok? ==>
            |r.value| == |Keys(xs)| &&
            forall i :: 0 <= i < |r.value| ==>
              var vs := Members(xs, Keys(xs)[i]);
              && |vs| > 0
              && r.value[i].attribute == Get(Some(vs[0]), "attribute")
              && |r.value[i].values| == |vs|
              && forall j :: 0 <= j < |vs| ==> r.value[i].values[j] == IdValue(Get(Some(vs[j]), "id"), Get(Some(vs[j]), "value")))
  {
    var gs := GroupBy(xs);
    ArrayVariations(xs);
    GroupByIsReference(xs);
    FormatGroupsAt(gs);
    if JNull in xs {
      MembersAreTheValuesOfKey(xs, SlugKey(JNull), JNull);
      KeysAreTheKeys(xs, SlugKey(JNull));
      var i :| 0 <= i < |Keys(xs)| && Keys(xs)[i] == SlugKey(JNull);
      assert JNull in gs[i].members;
    } else {
      forall i | 0 <= i < |gs| ensures JNull !in gs[i].members && |gs[i].members| > 0
      {
        MembersAreTheValuesOfKey(xs, Keys(xs)[i], JNull);
        KeysAreTheKeys(xs, Keys(xs)[i]);
      }
    }
  }

  /** Values that all carry the same key form a single group. */
  lemma {:induction false} OneKeyOneGroup(xs: seq<Json>, k: string)
    requires |xs| > 0 && forall i :: 0 <= i < |xs| ==> SlugKey(xs[i]) == k
    ensures GroupBy(xs) == [Group(k, xs)]
  {
    var p := xs[..|xs| - 1];
    if |xs| == 1 {
      assert p == [];
      assert [xs[0]] == xs;
    } else {
      OneKeyOneGroup(p, k);
      assert p + [xs[|xs| - 1]] == xs;
    }
  }

  /** A single group formats to its first attribute and its pairs. */
  lemma FormatOneGroup(g: Group)
    requires JNull !in g.members
    ensures FormatGroup(g).Ok? && FormatGroups([g]) == Ok([FormatGroup(g).value])
  {
    assert !IdValues(g.members).TypeError?;
    assert [g][0] == g && [g][1..] == [];
    assert FormatGroups([]) == Ok([]);
    assert [FormatGroup(g).value] + [] == [FormatGroup(g).value];
  }

  /** A string is grouped character by character. No character has an
      `attribute`, so all of them share the key "undefined": a non-empty
      string gives one entry with an undefined attribute and one pair of
      two `undefined`s per character. */
  lemma StringVariationsOneGroup(s: string)
    ensures s == "" ==> GetFormattedVariations(Some(JStr(s))) == Ok([])
    ensures var r := GetFormattedVariations(Some(JStr(s)));
            s != "" ==>
              && r.Ok? && |r.value| == 1
              && r.value[0].attribute == None
              && |r.value[0].values| == |s|
              && forall i :: 0 <= i < |s| ==> r.value[0].values[i] == IdValue(None, None)
  {
    if s != "" {
      var xs := Chars(s);
      OneKeyOneGroup(xs, "undefined");
      assert JNull !in xs;
      FormatOneGroup(Group("undefined", xs));
    }
  }

  /** An object with one property, other than an array-like `length`, is
      grouped as the one-element array of its value: the envelope
      `{data: [...]}` is not unwrapped here, and gives one entry whose
      attribute and pair are `undefined`. */
  lemma OnePropertyObjectGroupsItsValue(k: string, v: Json)
    ensures !LengthOnly(Some(JObj(map[k := v]))) ==>
              GetFormattedVariations(Some(JObj(map[k := v]))) == GetFormattedVariations(Some(JArr([v])))
    ensures k == "data" && v.JArr? ==>
              GetFormattedVariations(Some(JObj(map[k := v]))) == Ok([FormattedVariation(None, [IdValue(None, None)])])
  {
    assert map[k := v].Keys == {k};
    OneKeyOneGroup([v], SlugKey(v));
    if v.JArr? {
      var g := Group(SlugKey(v), [v]);
      FormatOneGroup(g);
      assert IdValues([v]).value[0] == IdValue(None, None);
      assert FormatGroup(g).value == FormattedVariation(None, [IdValue(None, None)]);
    }
  }

  /** `{length: n}` is array-like: no entry for `n == 0`, and otherwise a
      throw, since its elements are `undefined`. A length lodash rejects
      leaves a plain object grouped by its value. */
  lemma LengthObjectIsArrayLike(n: int)
    ensures 0 <= n <= MaxSafeInteger() ==>
              GetFormattedVariations(Some(JObj(map["length" := JNum(n)]))) == (if n == 0 then Ok([]) else TypeError)
    ensures n < 0 || n > MaxSafeInteger() ==>
              GetFormattedVariations(Some(JObj(map["length" := JNum(n)]))) == Ok([FormattedVariation(None, [IdValue(None, None)])])
  {
    var v := JNum(n);
    if n < 0 || n > MaxSafeInteger() {
      OnePropertyObjectGroupsItsValue("length", v);
      OneKeyOneGroup([v], SlugKey(v));
      var g := Group(SlugKey(v), [v]);
      FormatOneGroup(g);
      assert IdValues([v]).value[0] == IdValue(None, None);
      assert FormatGroup(g).value == FormattedVariation(None, [IdValue(None, None)]);
    }
  }

  /* ---------------------------------------------------------------- */
  /* Hiding attributes already used (form-utils.ts:315-323)           */
  /* ---------------------------------------------------------------- */

  /** `variations.find((e) => e?.attribute?.slug === slug)`. */
  function FindBySlug(vs: seq<Json>, slug: Option<Json>): (r: Option<Json>)
    ensures r.Some? <==> exists i :: 0 <= i < |vs| && StrictEq(Get(Get(Some(vs[i]), "attribute"), "slug"), slug)
    ensures r.Some? ==> r.value in vs && StrictEq(Get(Get(Some(r.value), "attribute"), "slug"), slug)
  {
    if |vs| == 0 then None
    else if StrictEq(Get(Get(Some(vs[0]), "attribute"), "slug"), slug) then Some(vs[0])
    else
      var r := FindBySlug(vs[1..], slug);
      assert forall i :: 1 <= i < |vs| ==> vs[i] == vs[1..][i - 1];
      r
  }

  /** Whether `filterAttributes` keeps the attribute `el`: a `find` that
      comes back empty or with a falsy element keeps it; `find` on a
      non-array throws. */
  function KeepsAttribute(el: Json, variations: Option<Json>): Result<bool>
  {
    if Nullish(variations) then Ok(true)
    else if !variations.value.JArr? then TypeError
    else Ok(!Truthy(FindBySlug(variations.value.items, Get(Some(el), "slug"))))
  }

  function FilterList(xs: seq<Json>, variations: Option<Json>): (r: Result<seq<Json>>)
    ensures r.TypeError? <==> |xs| > 0 && KeepsAttribute(xs[0], variations).TypeError?
    ensures r.Ok? ==> |r.value| <= |xs| && forall x :: x in r.value ==> x in xs && KeepsAttribute(x, variations) == Ok(true)
  {
    if |xs| == 0 then Ok([])
    else
      var keep := KeepsAttribute(xs[0], variations);
      if keep.TypeError? then TypeError
      else
        var rest := FilterList(xs[1..], variations);
        if rest.TypeError? then TypeError
        else Ok((if keep.value then [xs[0]] else []) + rest.value)
  }

  /** `filterAttributes(attributes, variations)`: `undefined` when there are
      no attributes. */
  function FilterAttributes(attributes: Option<Json>, variations: Option<Json>): Result<Option<seq<Json>>>
  {
    if Nullish(attributes) then Ok(None)
    else if !attributes.value.JArr? then TypeError
    else
      var r := FilterList(attributes.value.items, variations);
      if r.TypeError? then TypeError else Ok(Some(r.value))
  }

  /** The attributes kept are exactly those `filterAttributes` keeps one by
      one, in order. */
  lemma {:induction false} FilterListKeepsExactly(xs: seq<Json>, variations: Option<Json>, x: Json)
    requires FilterList(xs, variations).Ok?
    ensures x in FilterList(xs, variations).value <==> x in xs && KeepsAttribute(x, variations) == Ok(true)
  {
    if |xs| > 0 {
      var keep := KeepsAttribute(xs[0], variations);
      var rest := FilterList(xs[1..], variations);
      assert keep.Ok? && rest.Ok?;
      assert FilterList(xs, variations).value == (if keep.value then [xs[0]] else []) + rest.value;
      FilterListKeepsExactly(xs[1..], variations, x);
      assert x in xs <==> x == xs[0] || x in xs[1..] by {
        assert xs == [xs[0]] + xs[1..];
      }
    }
  }

  /** An attribute with a defined, non-NaN slug is hidden exactly when some
      chosen value belongs to an attribute with that slug; without any
      chosen values every attribute stays. */
  lemma AttributeHiddenIffUsed(el: Json, vs: seq<Json>)
    requires Get(Some(el), "slug").Some? && Get(Some(el), "slug").value != JNaN
    ensures KeepsAttribute(el, Some(JArr(vs))) == Ok(false) <==>
              exists i :: 0 <= i < |vs| && StrictEq(Get(Get(Some(vs[i]), "attribute"), "slug"), Get(Some(el), "slug"))
    ensures KeepsAttribute(el, None) == Ok(true)
  {
    var f := FindBySlug(vs, Get(Some(el), "slug"));
    if f.Some? {
      assert f.value.JObj?;
    }
  }

  /* ---------------------------------------------------------------- */
  /* Combinations (form-utils.ts:325-338)                             */
  /* ---------------------------------------------------------------- */

  /** One option of a combination: `{ name, value, id }`. */
  datatype Entry = Entry(name: Option<Json>, value: Option<Json>, id: Option<Json>)

  function EntriesOf(name: Option<Json>, as_: seq<Json>): (r: seq<Entry>)
    ensures |r| == |as_|
    ensures forall i :: 0 <= i < |as_| ==> r[i] == Entry(name, Get(Some(as_[i]), "value"), Get(Some(as_[i]), "id"))
  {
    if |as_| == 0 then []
    else [Entry(name, Get(Some(as_[0]), "value"), Get(Some(as_[0]), "id"))] + EntriesOf(name, as_[1..])
  }

  /** `v?.value?.map(...)`: `undefined` when the value list is absent, an
      error when it is not an array. */
  function GroupEntries(v: Json): Result<Option<seq<Entry>>>
  {
    var vals := Get(Some(v), "value");
    if Nullish(vals) then Ok(None)
    else if !vals.value.JArr? then TypeError
    else Ok(Some(EntriesOf(Get(Get(Some(v), "attribute"), "name"), vals.value.items)))
  }

  /** The mapped groups with the `undefined` ones filtered out: the map
      throws as soon as one value's list is not an array. */
  function FormattedValues(vs: seq<Json>): (r: Result<seq<seq<Entry>>>)
    ensures r.Ok? ==> |r.value| <= |vs|
    ensures r.TypeError? <==> exists i :: 0 <= i < |vs| && GroupEntries(vs[i]).TypeError?
  {
    if |vs| == 0 then Ok([])
    else
      var g := GroupEntries(vs[0]);
      var rest := FormattedValues(vs[1..]);
      if g.TypeError? || rest.TypeError? then TypeError
      else Ok((if g.value.Some? then [g.value.value] else []) + rest.value)
  }

  /** `idx` lists, in increasing order, exactly the positions of the values
      that have a value list, and `gs` holds their entries. */
  predicate PresentGroups(vs: seq<Json>, idx: seq<nat>, gs: seq<seq<Entry>>)
  {
    && |idx| == |gs|
    && (forall k :: 0 <= k < |idx| ==> idx[k] < |vs| && GroupEntries(vs[idx[k]]) == Ok(Some(gs[k])))
    && (forall k, l :: 0 <= k < l < |idx| ==> idx[k] < idx[l])
    && (forall i :: 0 <= i < |vs| && i !in idx ==> GroupEntries(vs[i]) == Ok(None))
  }

  /** Every position moved up by one. */
  function Shift(idx: seq<nat>): (r: seq<nat>)
    ensures |r| == |idx|
    ensures forall k :: 0 <= k < |idx| ==> r[k] == idx[k] + 1
  {
    if |idx| == 0 then [] else [idx[0] + 1] + Shift(idx[1..])
  }

  /** One more value in front: its group, when present, comes first and
      every other position moves up by one. */
  lemma PresentGroupsCons(vs: seq<Json>, idx': seq<nat>, rest: seq<seq<Entry>>)
    requires |vs| > 0 && GroupEntries(vs[0]).Ok? && PresentGroups(vs[1..], idx', rest)
    ensures var g := GroupEntries(vs[0]).value;
            PresentGroups(vs, (if g.Some? then [0] else []) + Shift(idx'), (if g.Some? then [g.value] else []) + rest)
  {
    var g := GroupEntries(vs[0]).value;
    var head: seq<nat> := if g.Some? then [0] else [];
    var gs := (if g.Some? then [g.value] else []) + rest;
    var idx := head + Shift(idx');
    PresentFound(vs, idx', rest, head, idx, gs);
    PresentOrdered(idx', head, idx);
    PresentAbsent(vs, idx', rest, head, idx);
  }

  /** The groups of the values after the first, at their shifted positions. */
  lemma ShiftFound(vs: seq<Json>, idx': seq<nat>, rest: seq<seq<Entry>>)
    requires |vs| > 0 && |idx'| == |rest|
    requires forall k :: 0 <= k < |idx'| ==> idx'[k] < |vs[1..]| && GroupEntries(vs[1..][idx'[k]]) == Ok(Some(rest[k]))
    ensures forall k :: 0 <= k < |idx'| ==> Shift(idx')[k] < |vs| && GroupEntries(vs[Shift(idx')[k]]) == Ok(Some(rest[k]))
  {
    var sh := Shift(idx');
    forall k | 0 <= k < |idx'|
      ensures sh[k] < |vs| && GroupEntries(vs[sh[k]]) == Ok(Some(rest[k]))
    {
      var j := idx'[k];
      assert GroupEntries(vs[1..][j]) == Ok(Some(rest[k]));
      assert sh[k] == j + 1 && vs[1..][j] == vs[j + 1];
    }
  }

  lemma PresentFound(vs: seq<Json>, idx': seq<nat>, rest: seq<seq<Entry>>, head: seq<nat>, idx: seq<nat>, gs: seq<seq<Entry>>)
    requires |vs| > 0 && GroupEntries(vs[0]).Ok? && PresentGroups(vs[1..], idx', rest)
    requires var g := GroupEntries(vs[0]).value;
             head == (if g.Some? then [0] else []) && gs == (if g.Some? then [g.value] else []) + rest
    requires idx == head + Shift(idx')
    ensures |idx| == |gs|
    ensures forall k :: 0 <= k < |idx| ==> idx[k] < |vs| && GroupEntries(vs[idx[k]]) == Ok(Some(gs[k]))
  {
    ShiftFound(vs, idx', rest);
    var sh := Shift(idx');
    if head == [] {
      assert idx == sh && gs == rest;
    } else {
      forall k | 0 <= k < |idx|
        ensures idx[k] < |vs| && GroupEntries(vs[idx[k]]) == Ok(Some(gs[k]))
      {
        if k > 0 {
          assert idx[k] == sh[k - 1] && gs[k] == rest[k - 1];
        }
      }
    }
  }

  predicate Increasing(idx: seq<nat>)
  {
    forall k, l :: 0 <= k < l < |idx| ==> idx[k] < idx[l]
  }

  lemma ShiftIncreasing(idx': seq<nat>)
    requires Increasing(idx')
    ensures Increasing(Shift(idx'))
    ensures forall k :: 0 <= k < |idx'| ==> Shift(idx')[k] > 0
  {
  }

  /** A zero in front of positive increasing positions keeps them
      increasing. */
  lemma ZeroFirstIncreasing(sh: seq<nat>)
    requires Increasing(sh)
    requires forall k :: 0 <= k < |sh| ==> sh[k] > 0
    ensures Increasing([0] + sh)
  {
    var idx := [0] + sh;
    forall k, l | 0 <= k < l < |idx| ensures idx[k] < idx[l]
    {
      assert idx[l] == sh[l - 1];
      if k > 0 {
        assert idx[k] == sh[k - 1];
      }
    }
  }

  lemma PresentOrdered(idx': seq<nat>, head: seq<nat>, idx: seq<nat>)
    requires forall k, l :: 0 <= k < l < |idx'| ==> idx'[k] < idx'[l]
    requires head == [] || head == [0]
    requires idx == head + Shift(idx')
    ensures forall k, l :: 0 <= k < l < |idx| ==> idx[k] < idx[l]
  {
    assert Increasing(idx');
    ShiftIncreasing(idx');
    if head == [] {
      assert idx == Shift(idx');
    } else {
      ZeroFirstIncreasing(Shift(idx'));
    }
    assert Increasing(idx);
  }

  lemma PresentAbsent(vs: seq<Json>, idx': seq<nat>, rest: seq<seq<Entry>>, head: seq<nat>, idx: seq<nat>)
    requires |vs| > 0 && GroupEntries(vs[0]).Ok? && PresentGroups(vs[1..], idx', rest)
    requires head == (if GroupEntries(vs[0]).value.Some? then [0] else [])
    requires idx == head + Shift(idx')
    ensures forall i :: 0 <= i < |vs| && i !in idx ==> GroupEntries(vs[i]) == Ok(None)
  {
    ShiftMisses(idx', head, idx);
    forall i | 0 <= i < |vs| && i !in idx
      ensures GroupEntries(vs[i]) == Ok(None)
    {
      if i > 0 {
        assert i - 1 !in idx';
        assert vs[i] == vs[1..][i - 1];
      }
    }
  }

  /** A position missing after the shift was missing before it. */
  lemma ShiftMisses(idx': seq<nat>, head: seq<nat>, idx: seq<nat>)
    requires idx == head + Shift(idx')
    ensures forall i :: i > 0 && i !in idx ==> i - 1 !in idx'
  {
    assert forall k :: 0 <= k < |idx'| ==> idx[|head| + k] == idx'[k] + 1;
  }

  /** The groups are exactly the entries of the values that have a value
      list, in the order of the values. */
  lemma {:induction false} FormattedValuesArePresentGroups(vs: seq<Json>)
    ensures FormattedValues(vs).Ok? ==> exists idx :: PresentGroups(vs, idx, FormattedValues(vs).value)
  {
    if |vs| == 0 {
      assert PresentGroups(vs, [], []);
    } else if FormattedValues(vs).Ok? {
      var tail := vs[1..];
      FormattedValuesArePresentGroups(tail);
      var rest := FormattedValues(tail).value;
      var idx' :| PresentGroups(tail, idx', rest);
      var g := GroupEntries(vs[0]);
      assert g.Ok? && FormattedValues(vs).value == (if g.value.Some? then [g.value.value] else []) + rest;
      PresentGroupsCons(vs, idx', rest);
    }
  }

  /** `[e, ...c]` for every `c`. */
  function Prefixed<T>(e: T, cs: seq<seq<T>>): (r: seq<seq<T>>)
    ensures |r| == |cs|
    ensures forall j :: 0 <= j < |cs| ==> r[j] == [e] + cs[j]
  {
    if |cs| == 0 then [] else [[e] + cs[0]] + Prefixed(e, cs[1..])
  }

  function CartAux<T>(g: seq<T>, rest: seq<seq<T>>): seq<seq<T>>
  {
    if |g| == 0 then [] else Prefixed(g[0], rest) + CartAux(g[1..], rest)
  }

  /** The n-ary cartesian product, first group varying slowest. */
  function Cartesian<T>(gs: seq<seq<T>>): seq<seq<T>>
  {
    if |gs| == 0 then [[]] else CartAux(gs[0], Cartesian(gs[1..]))
  }

  function SizeProduct<T>(gs: seq<seq<T>>): nat
  {
    if |gs| == 0 then 1 else |gs[0]| * SizeProduct(gs[1..])
  }

  /** `c` picks one element of each group, in group order. */
  predicate Choice<T(==)>(gs: seq<seq<T>>, c: seq<T>)
  {
    |c| == |gs| && forall i :: 0 <= i < |gs| ==> c[i] in gs[i]
  }

  /** `getCartesianProduct(values)`. */
  function GetCartesianProduct(values: Option<Json>): Result<seq<seq<Entry>>>
  {
    if Nullish(values) then Ok([])
    else if !values.value.JArr? then TypeError
    else
      var groups := FormattedValues(values.value.items);
      if groups.TypeError? then TypeError
      else if |groups.value| == 0 then Ok([])
      else Ok(Cartesian(groups.value))
  }

  lemma {:induction false} CartAuxSize<T>(g: seq<T>, rest: seq<seq<T>>)
    ensures |CartAux(g, rest)| == |g| * |rest|
  {
    if |g| > 0 {
      CartAuxSize(g[1..], rest);
      assert |g| * |rest| == |rest| + (|g| - 1) * |rest|;
    }
  }

  lemma CartAuxAt<T>(g: seq<T>, rest: seq<seq<T>>, i: nat, j: nat)
    requires i < |g| && j < |rest|
    ensures i * |rest| + j < |CartAux(g, rest)|
    ensures CartAux(g, rest)[i * |rest| + j] == [g[i]] + rest[j]
  {
    CartAuxAtOffset(g, rest, i, j);
    OffsetIsProduct(i, |rest|, j);
  }

  /** `i * n + j`, counted in steps of `n`. */
  function Offset(i: nat, n: nat, j: nat): nat
  {
    if i == 0 then j else n + Offset(i - 1, n, j)
  }

  lemma {:induction false} OffsetIsProduct(i: nat, n: nat, j: nat)
    ensures Offset(i, n, j) == i * n + j
  {
    if i > 0 {
      OffsetIsProduct(i - 1, n, j);
      NextOffset(i, n, j);
    }
  }

  lemma {:induction false} CartAuxAtOffset<T>(g: seq<T>, rest: seq<seq<T>>, i: nat, j: nat)
    requires i < |g| && j < |rest|
    ensures Offset(i, |rest|, j) < |CartAux(g, rest)|
    ensures CartAux(g, rest)[Offset(i, |rest|, j)] == [g[i]] + rest[j]
  {
    var head := Prefixed(g[0], rest);
    var tail := CartAux(g[1..], rest);
    CartAuxUnfold(g, rest);
    if i == 0 {
      ConcatLeft(head, tail, j);
    } else {
      var k := Offset(i - 1, |rest|, j);
      CartAuxAtOffset(g[1..], rest, i - 1, j);
      assert Offset(i, |rest|, j) == |head| + k;
      ConcatRight(head, tail, k);
      assert tail[k] == [g[i]] + rest[j] by {
        assert g[1..][i - 1] == g[i];
      }
    }
  }

  lemma CartAuxUnfold<T>(g: seq<T>, rest: seq<seq<T>>)
    requires |g| > 0
    ensures CartAux(g, rest) == Prefixed(g[0], rest) + CartAux(g[1..], rest)
  {
  }

  lemma ConcatLeft<T>(a: seq<T>, b: seq<T>, j: nat)
    requires j < |a|
    ensures j < |a + b| && (a + b)[j] == a[j]
  {
  }

  lemma ConcatRight<T>(a: seq<T>, b: seq<T>, k: nat)
    requires k < |b|
    ensures |a| + k < |a + b| && (a + b)[|a| + k] == b[k]
  {
  }

  lemma NextOffset(i: nat, n: nat, j: nat)
    requires i > 0
    ensures i * n + j == n + ((i - 1) * n + j)
  {
    assert i * n == (i - 1) * n + n;
  }

  lemma IndexBound(i: nat, j: nat, m: nat, n: nat)
    requires i < m && j < n
    ensures i * n + j < m * n
  {
    assert i * n <= (m - 1) * n;
    assert m * n == (m - 1) * n + n;
  }

  lemma {:induction false} CartAuxMembers<T>(g: seq<T>, rest: seq<seq<T>>, c: seq<T>)
    ensures c in CartAux(g, rest) <==> |c| > 0 && c[0] in g && c[1..] in rest
  {
    if |g| > 0 {
      CartAuxMembers(g[1..], rest, c);
      assert g == [g[0]] + g[1..];
      if |c| > 0 && c[0] == g[0] && c[1..] in rest {
        var j :| 0 <= j < |rest| && rest[j] == c[1..];
        assert Prefixed(g[0], rest)[j] == c;
      }
      if c in Prefixed(g[0], rest) {
        var j :| 0 <= j < |rest| && Prefixed(g[0], rest)[j] == c;
        assert c[1..] == rest[j];
      }
    }
  }

  /** The product has one combination per way of choosing. */
  lemma {:induction false} CartesianSize<T>(gs: seq<seq<T>>)
    ensures |Cartesian(gs)| == SizeProduct(gs)
  {
    if |gs| > 0 {
      CartesianSize(gs[1..]);
      CartAuxSize(gs[0], Cartesian(gs[1..]));
    }
  }

  /** Every combination picks one entry of each group in group order, and
      every such pick is a combination. */
  lemma {:induction false} CartesianIsAllChoices<T>(gs: seq<seq<T>>, c: seq<T>)
    ensures c in Cartesian(gs) <==> Choice(gs, c)
  {
    if |gs| == 0 {
      assert c in Cartesian(gs) <==> c == [];
    } else {
      CartAuxMembers(gs[0], Cartesian(gs[1..]), c);
      if |c| > 0 {
        CartesianIsAllChoices(gs[1..], c[1..]);
        if Choice(gs, c) {
          forall i | 0 <= i < |gs| - 1 ensures c[1..][i] in gs[1..][i]
          {
            assert c[1..][i] == c[i + 1];
          }
        }
        if Choice(gs[1..], c[1..]) && c[0] in gs[0] {
          forall i | 0 <= i < |gs| ensures c[i] in gs[i]
          {
            if i > 0 {
              assert c[i] == c[1..][i - 1];
            }
          }
        }
      }
    }
  }

  /** The first group varies slowest: combination `i * n + j` is the i-th
      entry of the first group followed by the j-th combination of the
      remaining groups, where `n` is their number of combinations. */
  lemma CartesianOrder<T>(gs: seq<seq<T>>, i: nat, j: nat)
    requires |gs| > 0 && i < |gs[0]| && j < |Cartesian(gs[1..])|
    ensures var n := |Cartesian(gs[1..])|;
      i * n + j < |Cartesian(gs)| && Cartesian(gs)[i * n + j] == [gs[0][i]] + Cartesian(gs[1..])[j]
  {
    CartAuxAt(gs[0], Cartesian(gs[1..]), i, j);
  }

  /** Groups whose value list is absent are skipped; the others are kept in
      order. */
  lemma {:induction false} FormattedValuesSkipsAbsent(vs: seq<Json>, v: Json)
    requires Nullish(Get(Some(v), "value"))
    ensures FormattedValues([v] + vs) == FormattedValues(vs)
  {
    assert ([v] + vs)[1..] == vs;
    assert GroupEntries(v) == Ok(None);
    var rest := FormattedValues(vs);
    if rest.Ok? {
      assert [] + rest.value == rest.value;
    }
  }

  /** `getCartesianProduct` gives `[]` for absent input and for a list
      without value lists; otherwise as many combinations as the product of
      the group sizes, each picking one entry per group in group order. */
  lemma CartesianProductShape(values: Option<Json>)
    requires GetCartesianProduct(values).Ok?
    ensures Nullish(values) ==> GetCartesianProduct(values) == Ok([])
    ensures !Nullish(values) ==>
              var gs := FormattedValues(values.value.items).value;
              var r := GetCartesianProduct(values).value;
              && (|gs| == 0 ==> r == [])
              && (|gs| > 0 ==> |r| == SizeProduct(gs) && forall c :: c in r <==> Choice(gs, c))
  {
    if !Nullish(values) {
      var gs := FormattedValues(values.value.items).value;
      if |gs| > 0 {
        CartesianSize(gs);
        forall c ensures c in Cartesian(gs) <==> Choice(gs, c)
        {
          CartesianIsAllChoices(gs, c);
        }
      }
    }
  }
}
