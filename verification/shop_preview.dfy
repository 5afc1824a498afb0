/**
 * Logo and document helpers of the shop preview (shop-preview-view.tsx) and
 * the shop logo table cell (shop-logo-table-cell.tsx): the choice of the
 * logo URL among the places a shop record may carry it, joining a relative
 * URL to the API base, unwrapping the documents list and assembling the
 * address line.
 *
 * The API endpoint environment variable and the configured product
 * placeholder image are parameters (`endpoint`, `placeholder`).
 */
module ShopPreview {
  import opened Wrappers
  import opened Js
  import Seqs

  predicate StartsWith(s: string, p: string)
  {
    |p| <= |s| && s[..|p|] == p
  }

  /** `(endpoint ?? '').replace(/\/$/, '')`: one trailing '/' removed. */
  function Base(endpoint: Option<string>): (r: string)
    ensures var e := endpoint.GetOr("");
      e == r || (e == r + "/" && |e| > 0 && e[|e| - 1] == '/')
    ensures var e := endpoint.GetOr("");
      |e| > 0 && e[|e| - 1] == '/' ==> e == r + "/"
  {
    var e := endpoint.GetOr("");
    if |e| > 0 && e[|e| - 1] == '/' then e[..|e| - 1] else e
  }

  /** The join both components use: an `http…` URL as it is, a rooted one
      after the base, any other after the base and a '/'. */
  function Absolute(base: string, url: string): (r: string)
  {
    if StartsWith(url, "http") then url
    else if StartsWith(url, "/") then base + url
    else base + "/" + url
  }

  /** `url` with one leading '/' removed. */
  function Unrooted(url: string): string
  {
    if StartsWith(url, "/") then url[1..] else url
  }

  /** A URL that is not `http…` always ends up as the base, exactly one
      '/', and the path: a leading '/' is neither lost nor doubled. */
  lemma AbsoluteJoinsWithOneSlash(base: string, url: string)
    ensures !StartsWith(url, "http") ==> Absolute(base, url) == base + "/" + Unrooted(url)
    ensures StartsWith(url, "http") ==> Absolute(base, url) == url
  {
    if !StartsWith(url, "http") && StartsWith(url, "/") {
      assert url == "/" + url[1..];
    }
  }

  /** When the base is empty or itself `http…`, joining is idempotent, so
      a URL already made absolute is left alone by a second join. */
  lemma AbsoluteIdempotent(base: string, url: string)
    requires base == "" || StartsWith(base, "http")
    ensures Absolute(base, Absolute(base, url)) == Absolute(base, url)
  {
    var r := Absolute(base, url);
    if !StartsWith(url, "http") {
      if base == "" {
        if StartsWith(url, "/") {
          assert r == url;
        } else {
          assert r == "/" + url && StartsWith(r, "/");
        }
      } else {
        assert r[..4] == base[..4];
      }
    }
  }

  /** `toAbsoluteUrl(url)`. */
  function ToAbsoluteUrl(endpoint: Option<string>, url: string): (r: string)
    ensures url == "" <==> r == ""
  {
    if url == "" then "" else Absolute(Base(endpoint), url)
  }

  /* ---------------------------------------------------------------- */
  /* Choosing the logo URL                                            */
  /* ---------------------------------------------------------------- */

  /** A `logo` that is a string is the URL itself. */
  function StringLogo(logo: Option<Json>): Option<Json>
  {
    if logo.Some? && logo.value.JStr? then logo else Some(JNull)
  }

  /** The URL fields of a `logo` object, in the order they are tried. */
  function LogoFields(logo: Option<Json>): seq<Option<Json>>
  {
    [Get(logo, "thumbnail"), Get(logo, "original"), Get(logo, "url")]
  }

  /** The flat fields tried after the logo, ending in `null`. */
  function FallbackFields(shop: map<string, Json>): seq<Option<Json>>
  {
    [Field(shop, "logo_thumbnail"), Field(shop, "logo_original"), Field(shop, "logo_url"),
     Field(shop, "image_url"), Some(JNull)]
  }

  /** The places `getLogoUrl` looks for the logo, in its order: the flat
      `logo_image_url`, a string `logo`, the `logo` object's thumbnail,
      original and url, the four flat fallbacks, and a final `null`. */
  function LogoCandidates(shop: map<string, Json>): (r: seq<Option<Json>>)
    ensures |r| == 10
    ensures r[0] == Field(shop, "logo_image_url")
    ensures var logo := Field(shop, "logo");
            && (logo.Some? && logo.value.JStr? ==> r[1] == logo)
            && (logo.None? || !logo.value.JStr? ==> r[1] == Some(JNull))
    ensures forall i :: 2 <= i < 5 ==> r[i] == Get(Field(shop, "logo"), ["thumbnail", "original", "url"][i - 2])
    ensures forall i :: 5 <= i < 9 ==>
              r[i] == Field(shop, ["logo_thumbnail", "logo_original", "logo_url", "image_url"][i - 5])
    ensures r[9] == Some(JNull)
    ensures shop == map[] ==> forall i :: 0 <= i < 10 ==> Nullish(r[i])
  {
    var logo := Field(shop, "logo");
    [Field(shop, "logo_image_url"), StringLogo(logo)] + LogoFields(logo) + FallbackFields(shop)
  }

  /** The URL `getLogoUrl` picks. */
  function PreviewLogo(shop: map<string, Json>): Option<Json>
  {
    Coalesce(LogoCandidates(shop))
  }

  /** The URL `getLogoUrlFromRecord` picks: a string logo, or else the
      first of its thumbnail, original and url, as one operand. */
  function RecordLogo(shop: map<string, Json>): Option<Json>
  {
    var logo := Field(shop, "logo");
    var fromLogo := if logo.Some? && logo.value.JStr? then logo else Coalesce(LogoFields(logo));
    Coalesce([Field(shop, "logo_image_url"), fromLogo] + FallbackFields(shop))
  }

  /** `a ?? rest`. */
  lemma CoalesceCons(a: Option<Json>, rest: seq<Option<Json>>)
    requires |rest| > 0
    ensures Coalesce([a] + rest) == if Nullish(a) then Coalesce(rest) else a
  {
    assert ([a] + rest)[1..] == rest;
  }

  /** The two components look in the same places in the same order, so
      they pick the same URL. */
  lemma SameLogoChosen(shop: map<string, Json>)
    ensures RecordLogo(shop) == PreviewLogo(shop)
  {
    var logo := Field(shop, "logo");
    var first := Field(shop, "logo_image_url");
    var fields := LogoFields(logo);
    var tail := FallbackFields(shop);
    var fromLogo := if logo.Some? && logo.value.JStr? then logo else Coalesce(fields);
    var c := [first, StringLogo(logo)] + fields + tail;
    assert c == [first] + ([StringLogo(logo)] + (fields + tail));
    CoalesceCons(first, [StringLogo(logo)] + (fields + tail));
    CoalesceCons(StringLogo(logo), fields + tail);
    var r := [first, fromLogo] + tail;
    assert r == [first] + ([fromLogo] + tail);
    CoalesceCons(first, [fromLogo] + tail);
    CoalesceCons(fromLogo, tail);
    CoalesceFlatten(fields, tail);
    CoalesceCons(Coalesce(fields), tail);
  }

  /** A nested `??` chain in front of more operands reads as one chain. */
  lemma {:induction false} CoalesceFlatten(xs: seq<Option<Json>>, tail: seq<Option<Json>>)
    requires |xs| > 0 && |tail| > 0
    ensures Coalesce([Coalesce(xs)] + tail) == Coalesce(xs + tail)
  {
    if |xs| > 1 && Nullish(xs[0]) {
      CoalesceFlatten(xs[1..], tail);
      assert (xs + tail)[1..] == xs[1..] + tail;
    } else if Nullish(xs[0]) {
      assert (xs + tail)[1..] == tail;
    }
  }

  /** `getLogoUrl` takes the first of its candidates that is neither
      `null` nor `undefined`. */
  lemma PreviewLogoPreference(shop: map<string, Json>, i: nat)
    requires i < |LogoCandidates(shop)| && !Nullish(LogoCandidates(shop)[i])
    requires forall j :: 0 <= j < i ==> Nullish(LogoCandidates(shop)[j])
    ensures PreviewLogo(shop) == LogoCandidates(shop)[i]
  {
    CoalesceAt(LogoCandidates(shop), i);
  }

  /** The chosen URL made usable: `None` when it is missing, falsy or the
      placeholder itself; a `TypeError` when it is some other truthy
      non-string, which has no `startsWith`; the joined URL otherwise. */
  function Resolve(url: Option<Json>, placeholder: string, endpoint: Option<string>): (r: Result<Option<string>>)
    ensures !Truthy(url) || url == Some(JStr(placeholder)) ==> r == Ok(None)
    ensures r.Ok? && r.value.Some? ==>
      url.Some? && url.value.JStr? && url.value.s != placeholder &&
      r.value.value == Absolute(Base(endpoint), url.value.s)
    ensures r == TypeError <==> Truthy(url) && !url.value.JStr?
    ensures Truthy(url) && url.value.JStr? && url.value.s != placeholder ==>
      r == Ok(Some(Absolute(Base(endpoint), url.value.s)))
  {
    if !Truthy(url) || StrictEq(url, Some(JStr(placeholder))) then Ok(None)
    else if !url.value.JStr? then TypeError
    else Ok(Some(Absolute(Base(endpoint), url.value.s)))
  }

  /** `getLogoUrl(shop)`: the placeholder for no shop or no usable URL. */
  function GetLogoUrl(shop: Option<map<string, Json>>, placeholder: string, endpoint: Option<string>): (r: Result<string>)
    ensures shop.None? ==> r == Ok(placeholder)
    ensures shop.Some? && (!Truthy(PreviewLogo(shop.value)) || PreviewLogo(shop.value) == Some(JStr(placeholder))) ==>
      r == Ok(placeholder)
    ensures
      (shop.Some? && PreviewLogo(shop.value).Some? && PreviewLogo(shop.value).value.JStr? &&
       PreviewLogo(shop.value).value.s !in {"", placeholder}) ==>
        r == Ok(Absolute(Base(endpoint), PreviewLogo(shop.value).value.s))
  {
    if shop.None? then Ok(placeholder)
    else match Resolve(PreviewLogo(shop.value), placeholder, endpoint)
      case Ok(u) => Ok(u.GetOr(placeholder))
      case TypeError => TypeError
  }

  /** `getLogoUrlFromRecord(record)`: `null` rather than the placeholder
      when there is no usable URL. */
  function GetLogoUrlFromRecord(record: map<string, Json>, placeholder: string, endpoint: Option<string>): (r: Result<Option<string>>)
    ensures !Truthy(RecordLogo(record)) || RecordLogo(record) == Some(JStr(placeholder)) ==> r == Ok(None)
    ensures var u := RecordLogo(record);
      u.Some? && u.value.JStr? && u.value.s !in {"", placeholder} ==>
        r == Ok(Some(Absolute(Base(endpoint), u.value.s)))
    ensures var u := RecordLogo(record);
      r.TypeError? <==> Truthy(u) && !u.value.JStr?
  {
    Resolve(RecordLogo(record), placeholder, endpoint)
  }

  /** The table cell's `logoUrl`: the record's URL, else the detail
      query's `logo_image_url`, logo thumbnail or logo original. */
  function CellLogoUrl(fromRecord: Option<string>, detail: Option<Json>): (r: Option<Json>)
    ensures fromRecord.Some? ==> r == Some(JStr(fromRecord.value))
  {
    var logo := Get(detail, "logo");
    Coalesce([
      if fromRecord.Some? then Some(JStr(fromRecord.value)) else Some(JNull),
      Get(detail, "logo_image_url"),
      Some(JNull),
      Get(logo, "thumbnail"),
      Get(logo, "original"),
      Some(JNull)])
  }

  /** The table cell's `resolvedUrl`. */
  function CellResolvedUrl(fromRecord: Option<string>, detail: Option<Json>, placeholder: string,
                           endpoint: Option<string>): (r: Result<string>)
    ensures var u := CellLogoUrl(fromRecord, detail);
      !Truthy(u) || u == Some(JStr(placeholder)) ==> r == Ok(placeholder)
    ensures var u := CellLogoUrl(fromRecord, detail);
      u.Some? && u.value.JStr? && u.value.s !in {"", placeholder} ==>
        r == Ok(Absolute(Base(endpoint), u.value.s))
    ensures var u := CellLogoUrl(fromRecord, detail);
      r.TypeError? <==> Truthy(u) && !u.value.JStr?
  {
    match Resolve(CellLogoUrl(fromRecord, detail), placeholder, endpoint)
    case Ok(u) => Ok(u.GetOr(placeholder))
    case TypeError => TypeError
  }

  /** The whole cell: a URL found on the record wins over the detail
      query, and with an empty or `http…` base it is shown as found, while
      a record without one shows what the detail query offers. */
  lemma CellPrefersRecord(record: map<string, Json>, detail: Option<Json>, placeholder: string,
                          endpoint: Option<string>)
    requires GetLogoUrlFromRecord(record, placeholder, endpoint).Ok?
    requires Base(endpoint) == "" || StartsWith(Base(endpoint), "http")
    ensures var fromRecord := GetLogoUrlFromRecord(record, placeholder, endpoint).value;
      fromRecord.Some? && fromRecord.value != "" && fromRecord.value != placeholder ==>
        CellResolvedUrl(fromRecord, detail, placeholder, endpoint) == Ok(fromRecord.value)
    ensures var fromRecord := GetLogoUrlFromRecord(record, placeholder, endpoint).value;
      fromRecord.None? ==>
        CellLogoUrl(fromRecord, detail) ==
          Coalesce([Get(detail, "logo_image_url"), Some(JNull), Get(Get(detail, "logo"), "thumbnail"),
                    Get(Get(detail, "logo"), "original"), Some(JNull)])
  {
    var fromRecord := GetLogoUrlFromRecord(record, placeholder, endpoint).value;
    if fromRecord.Some? {
      var u := RecordLogo(record).value.s;
      AbsoluteIdempotent(Base(endpoint), u);
    }
  }

  /* ---------------------------------------------------------------- */
  /* Documents and address                                            */
  /* ---------------------------------------------------------------- */

  /** `normalizeDocuments(shop)`: the documents array, or the array in its
      `data` field, or nothing. */
  function NormalizeDocuments(shop: Option<map<string, Json>>): (r: seq<Json>)
    ensures shop.None? ==> r == []
  {
    if shop.None? then []
    else
      var raw := Field(shop.value, "documents");
      if raw.Some? && raw.value.JArr? then raw.value.items
      else if raw.Some? && raw.value.JObj? && "data" in raw.value.fields && raw.value.fields["data"].JArr? then
        raw.value.fields["data"].items
      else []
  }

  /** Documents sent bare or wrapped in `{data: …}` read the same; anything
      else, including a `data` that is not an array, reads as none. */
  lemma DocumentsUnwrapped(shop: map<string, Json>, docs: seq<Json>, other: map<string, Json>)
    ensures NormalizeDocuments(Some(shop["documents" := JArr(docs)])) == docs
    ensures NormalizeDocuments(Some(shop["documents" := JObj(other["data" := JArr(docs)])])) == docs
    ensures ("data" !in other || !other["data"].JArr?) ==>
      NormalizeDocuments(Some(shop["documents" := JObj(other)])) == []
    ensures "documents" !in shop ==> NormalizeDocuments(Some(shop)) == []
  {
  }

  /** `[…].filter(Boolean)`. */
  function Present(vs: seq<Option<Json>>): (r: seq<Json>)
    ensures forall i :: 0 <= i < |r| ==> Truthy(Some(r[i]))
    ensures |r| <= |vs|
  {
    if |vs| == 0 then []
    else (if Truthy(vs[0]) then [vs[0].value] else []) + Present(vs[1..])
  }

  lemma {:induction false} PresentKeepsTruthy(vs: seq<Option<Json>>)
    ensures forall x :: x in Present(vs) <==> Some(x) in vs && Truthy(Some(x))
    ensures |Present(vs)| == 0 <==> forall i :: 0 <= i < |vs| ==> !Truthy(vs[i])
  {
    if |vs| > 0 {
      PresentKeepsTruthy(vs[1..]);
      assert vs == [vs[0]] + vs[1..];
      if Truthy(vs[0]) {
        assert Present(vs)[0] == vs[0].value;
      }
    }
  }

  /** The five address parts in their fixed order; the shop's own country
      comes before the address's. */
  function AddressParts(shop: map<string, Json>): seq<Option<Json>>
  {
    var address := Field(shop, "address");
    var country := Field(shop, "country");
    [ Field(shop, "street_address"),
      Get(address, "city"),
      Get(address, "state"),
      Get(address, "zip"),
      if !Nullish(country) then country else Get(address, "country") ]
  }

  const NO_ADDRESS := "—"

  /** `addressStr`. */
  function AddressLine(shop: map<string, Json>): string
  {
    var parts := Present(AddressParts(shop));
    if |parts| > 0 then Join(Seqs.Map(ToStr, parts), ", ") else NO_ADDRESS
  }

  /** Each string with a leading space. */
  function Indented(ps: seq<string>): (r: seq<string>)
    ensures |r| == |ps|
    ensures forall i :: 0 <= i < |ps| ==> r[i] == " " + ps[i]
  {
    if |ps| == 0 then [] else [" " + ps[0]] + Indented(ps[1..])
  }

  lemma {:induction false} JoinIndented(ps: seq<string>)
    requires |ps| > 0
    ensures " " + Join(ps, ", ") == Join(Indented(ps), ",")
  {
    if |ps| > 1 {
      JoinIndented(ps[1..]);
      assert Indented(ps)[1..] == Indented(ps[1..]);
    }
  }

  /** With at least one part present, and no part containing a comma, the
      address read back at its commas gives the present parts in order,
      each after the first with its leading space. */
  lemma AddressReadsBack(shop: map<string, Json>)
    requires |Present(AddressParts(shop))| > 0
    requires forall x :: x in Present(AddressParts(shop)) ==> ',' !in ToStr(x)
    ensures var ss := Seqs.Map(ToStr, Present(AddressParts(shop)));
      Split(AddressLine(shop), ',') == [ss[0]] + Indented(ss[1..])
  {
    var ps := Present(AddressParts(shop));
    var ss := Seqs.Map(ToStr, ps);
    Seqs.MapAt(ToStr, ps);
    var parts := [ss[0]] + Indented(ss[1..]);
    if |ss| > 1 {
      JoinIndented(ss[1..]);
      assert Join(ss, ", ") == ss[0] + "," + Join(Indented(ss[1..]), ",");
      assert Join(parts, ",") == ss[0] + "," + Join(Indented(ss[1..]), ",") by {
        assert parts[1..] == Indented(ss[1..]);
      }
    }
    forall i | 0 <= i < |parts|
      ensures ',' !in parts[i]
    {
      assert ps[i] in ps;
      if i > 0 {
        assert parts[i] == " " + ss[i];
      }
    }
    SplitJoin(parts, ',');
  }

  /** No present part gives the dash; a country that is set but empty on
      the shop hides the address's own country. */
  lemma AddressEdgeCases(shop: map<string, Json>)
    ensures (forall i :: 0 <= i < 5 ==> !Truthy(AddressParts(shop)[i])) ==> AddressLine(shop) == NO_ADDRESS
    ensures Field(shop, "country") == Some(JStr("")) ==> !Truthy(AddressParts(shop)[4])
  {
    PresentKeepsTruthy(AddressParts(shop));
  }
}
