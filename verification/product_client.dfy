/**
 * The product client's update (data/client/product.ts): the payload it
 * sends and how it reads the reply, which the backend may wrap as
 * `{ data: product }` or send bare. The HTTP call itself is not modelled:
 * the reply is a parameter, and the products endpoint is a parameter.
 */
module ProductClient {
  import opened Wrappers
  import opened Js

  /** `v != null && typeof v === 'object'`: objects and arrays. */
  predicate IsObject(v: Option<Json>)
  {
    v.Some? && (v.value.JObj? || v.value.JArr?)
  }

  /** `'data' in v` for an object or an array (arrays only have index keys
      and `length`). */
  predicate HasData(v: Option<Json>)
  {
    v.Some? && v.value.JObj? && "data" in v.value.fields
  }

  /** `normalizeProductResponse(response, fallback)`. */
  function NormalizeProductResponse(response: Option<Json>, fallback: map<string, Json>): (r: map<string, Json>)
    ensures !IsObject(response) ==> r == fallback
    ensures r.Keys >= fallback.Keys
  {
    if IsObject(response) && HasData(response) && IsObject(Get(response, "data")) then
      fallback + Spread(Get(response, "data"))
    else if IsObject(response) then fallback + Spread(response)
    else fallback
  }

  /** A reply wrapping an object in `data` gives that object over the
      fallback; any other object reply, including `{data: null}`, is itself
      laid over the fallback; in both, the reply's fields win. */
  lemma NormalizeCases(response: Option<Json>, fallback: map<string, Json>, k: string)
    ensures var r := NormalizeProductResponse(response, fallback);
      response.Some? && response.value.JObj? && Field(response.value.fields, "data").Some? &&
      Field(response.value.fields, "data").value.JObj? ==>
        var inner := Field(response.value.fields, "data").value.fields;
        Field(r, k) == if k in inner then Some(inner[k]) else Field(fallback, k)
    ensures var r := NormalizeProductResponse(response, fallback);
      response.Some? && response.value.JObj? && !IsObject(Field(response.value.fields, "data")) ==>
        var outer := response.value.fields;
        Field(r, k) == if k in outer then Some(outer[k]) else Field(fallback, k)
  {
  }

  /** The payload keys `update` never sends. */
  const UPDATE_OMIT_KEYS: set<string> := {"variations"}

  /** What `update(payload)` sends: the path for the product's id, and
      the payload without `id` and the omitted relation keys. */
  function UpdateRequest(endpoint: string, payload: map<string, Json>): (r: (string, map<string, Json>))
    ensures forall k :: k in r.1 <==> k in payload && k != "id" && k !in UPDATE_OMIT_KEYS
    ensures forall k :: k in r.1 ==> r.1[k] == payload[k]
  {
    (endpoint + "/" + StrOf(Field(payload, "id")), payload - {"id"} - UPDATE_OMIT_KEYS)
  }

  /** `{ id, slug: payload.slug }`, without the keys that are
      `undefined`. */
  function IdentityOf(payload: map<string, Json>): (r: map<string, Json>)
    ensures Field(r, "id") == Field(payload, "id") && Field(r, "slug") == Field(payload, "slug")
    ensures r.Keys <= {"id", "slug"}
  {
    SetField(SetField(map[], "id", Field(payload, "id")), "slug", Field(payload, "slug"))
  }

  /** `update(payload)`'s result for the backend's `reply`: the reply read
      over the payload's `id` and `slug`. */
  function Update(payload: map<string, Json>, reply: Option<Json>): (r: map<string, Json>)
    ensures !IsObject(reply) ==> Field(r, "id") == Field(payload, "id") && Field(r, "slug") == Field(payload, "slug")
  {
    NormalizeProductResponse(reply, IdentityOf(payload))
  }

  /** A reply that does not mention the id or the slug keeps the ones the
      payload had, bare or wrapped in `data`. A bare product is only read
      as such when its own `data` field is not an object: otherwise that
      field is taken for the wrapped product. */
  lemma UpdateKeepsIdentity(payload: map<string, Json>, product: map<string, Json>, k: string)
    requires k == "id" || k == "slug"
    requires k !in product && !IsObject(Field(product, "data"))
    ensures Field(Update(payload, Some(JObj(product))), k) == Field(payload, k)
    ensures Field(Update(payload, Some(JObj(map["data" := JObj(product)]))), k) == Field(payload, k)
  {
    var fb := IdentityOf(payload);
    NormalizeCases(Some(JObj(product)), fb, k);
    NormalizeCases(Some(JObj(map["data" := JObj(product)])), fb, k);
  }
}
