/**
 * The query parameters the shop client builds (data/client/shop.ts): `get`
 * for one shop and `paginated` for the list. The HTTP call is not modelled;
 * each function returns what would be passed to it. The shops endpoint is a
 * parameter, and `HttpClient.formatSearchParams` is a parameter `format`
 * applied to the name.
 */
module ShopClient {
  import opened Wrappers
  import opened Js

  /** `get({ slug, with })`: the path and the parameters, with `with` only
      when it is truthy. */
  function GetShop(endpoint: string, slug: string, withParam: Option<Json>): (r: (string, map<string, Json>))
    ensures "with" in r.1 <==> Truthy(withParam)
    ensures "with" in r.1 ==> Some(r.1["with"]) == withParam
    ensures r.1.Keys <= {"with"}
  {
    (endpoint + "/" + slug, if Truthy(withParam) then map["with" := withParam.value] else map[])
  }

  /** The options `paginated` takes apart; the rest are copied. */
  const PaginatedKeys: set<string> := {"name", "is_active", "limit", "page", "orderBy", "sortedBy"}

  /** The parameters `paginated` always writes after the copied ones. */
  const FixedKeys: set<string> := {"limit", "page", "orderBy", "sortedBy", "order_by", "sort"}

  /** `name != null && String(name).trim() !== ''`. */
  predicate HasSearchName(name: Option<Json>)
  {
    !Nullish(name) && Trim(ToStr(name.value)) != ""
  }

  /** The defaults overlaid with the options `paginated` does not take
      apart. */
  function Copied(options: map<string, Json>): (r: map<string, Json>)
    ensures forall k :: k !in PaginatedKeys && k in options ==> k in r && r[k] == options[k]
    ensures forall k :: k !in options && k == "searchJoin" ==> Field(r, k) == Some(JStr("and"))
    ensures forall k :: k !in options && k == "with" ==> Field(r, k) == Some(JStr("logo;cover_image"))
  {
    map["searchJoin" := JStr("and"), "with" := JStr("logo;cover_image")] + (options - PaginatedKeys)
  }

  /** The copied options with the paging and ordering fields written
      over them, the ordering under both spellings. */
  function Ordered(options: map<string, Json>): (r: map<string, Json>)
    ensures Field(r, "limit") == Some(Or(Field(options, "limit"), JNum(15)))
    ensures Field(r, "page") == Some(Or(Field(options, "page"), JNum(1)))
    ensures Field(r, "orderBy") == Field(r, "order_by") == Some(Or(Field(options, "orderBy"), JStr("created_at")))
    ensures Field(r, "sortedBy") == Field(r, "sort") == Some(Or(Field(options, "sortedBy"), JStr("desc")))
    ensures forall k :: k !in FixedKeys ==> Field(r, k) == Field(Copied(options), k)
  {
    var order := Or(Field(options, "orderBy"), JStr("created_at"));
    var sort := Or(Field(options, "sortedBy"), JStr("desc"));
    Copied(options)
      ["limit" := Or(Field(options, "limit"), JNum(15))]
      ["page" := Or(Field(options, "page"), JNum(1))]
      ["orderBy" := order]["sortedBy" := sort]["order_by" := order]["sort" := sort]
  }

  /** `paginated(options)`: defaults, then the copied options, then the
      paging and ordering fields, then `is_active` and `search` when they
      apply. */
  function Paginated(options: map<string, Json>, format: Json -> Json): (r: map<string, Json>)
  {
    var params := Ordered(options);
    var isActive := Field(options, "is_active");
    var withActive := if !Nullish(isActive) then params["is_active" := isActive.value] else params;
    var name := Field(options, "name");
    if HasSearchName(name) then withActive["search" := format(name.value)] else withActive
  }

  /** Only `is_active` and `search` are written after the ordered
      parameters. */
  lemma PaginatedKeepsOrdered(options: map<string, Json>, format: Json -> Json, k: string)
    requires k != "is_active" && k != "search"
    ensures Field(Paginated(options, format), k) == Field(Ordered(options), k)
  {
  }

  /** Absent paging and ordering options take the defaults 15, 1,
      'created_at' and 'desc'; given ones are sent as they are. */
  lemma PaginatedDefaults(options: map<string, Json>, format: Json -> Json)
    ensures var r := Paginated(options, format);
      && Field(r, "limit") == Some(Or(Field(options, "limit"), JNum(15)))
      && Field(r, "page") == Some(Or(Field(options, "page"), JNum(1)))
      && (Nullish(Field(options, "orderBy")) ==> Field(r, "orderBy") == Some(JStr("created_at")))
      && (Nullish(Field(options, "sortedBy")) ==> Field(r, "sortedBy") == Some(JStr("desc")))
      && (!Nullish(Field(options, "orderBy")) ==> Field(r, "orderBy") == Field(options, "orderBy"))
  {
    PaginatedKeepsOrdered(options, format, "limit");
    PaginatedKeepsOrdered(options, format, "page");
    PaginatedKeepsOrdered(options, format, "orderBy");
    PaginatedKeepsOrdered(options, format, "sortedBy");
  }

  /** The two spellings of the ordering always agree. */
  lemma OrderSpellingsAgree(options: map<string, Json>, format: Json -> Json)
    ensures var r := Paginated(options, format);
      "orderBy" in r && "order_by" in r && r["orderBy"] == r["order_by"] &&
      "sortedBy" in r && "sort" in r && r["sortedBy"] == r["sort"]
  {
    PaginatedKeepsOrdered(options, format, "orderBy");
    PaginatedKeepsOrdered(options, format, "order_by");
    PaginatedKeepsOrdered(options, format, "sortedBy");
    PaginatedKeepsOrdered(options, format, "sort");
  }

  /** `is_active` is sent exactly when it is given and not `null`; `search`
      is the formatted name when the name is not blank, and otherwise only
      a `search` passed in among the other options. */
  lemma FiltersSentWhenGiven(options: map<string, Json>, format: Json -> Json)
    ensures var r := Paginated(options, format);
      && ("is_active" in r <==> !Nullish(Field(options, "is_active")))
      && ("is_active" in r ==> r["is_active"] == options["is_active"])
      && (HasSearchName(Field(options, "name")) ==> Field(r, "search") == Some(format(options["name"])))
      && (!HasSearchName(Field(options, "name")) ==> Field(r, "search") == Field(options, "search"))
  {
    assert Field(Ordered(options), "is_active") == Field(Copied(options), "is_active") == None;
    assert Field(Ordered(options), "search") == Field(Copied(options), "search") == Field(options, "search");
  }

  /** Every other option is copied unchanged, and the two defaults stay
      unless an option replaces them. */
  lemma OtherOptionsCopied(options: map<string, Json>, format: Json -> Json, k: string)
    requires k !in PaginatedKeys && k !in FixedKeys && k != "search"
    ensures k in options ==> Field(Paginated(options, format), k) == Some(options[k])
    ensures k !in options && k == "searchJoin" ==> Field(Paginated(options, format), k) == Some(JStr("and"))
    ensures k !in options && k == "with" ==> Field(Paginated(options, format), k) == Some(JStr("logo;cover_image"))
  {
    PaginatedKeepsOrdered(options, format, k);
  }
}
