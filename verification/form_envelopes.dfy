/**
 * The two small envelope helpers of form-utils.ts: the variation-options
 * list that the API sends bare or inside `{ data: [...] }` (lines 23-29),
 * and `processOptions`, which decodes an option list stored as JSON text
 * and keeps anything that does not decode (lines 76-82).
 *
 * `JSON.parse` is not modelled: it is a parameter `parse` that returns
 * `None` where the real one throws. Like `JSON.parse`, it is applied to the
 * string form of its argument.
 */
module FormEnvelopes {
  import opened Wrappers
  import opened Js

  /** `ensureVariationOptionsArray(val)`. */
  function EnsureVariationOptionsArray(v: Option<Json>): (r: seq<Json>)
    ensures r != [] ==> v.Some? && (v.value.JArr? || (v.value.JObj? && "data" in v.value.fields))
  {
    if v.Some? && v.value.JArr? then v.value.items
    else if v.Some? && v.value.JObj? && "data" in v.value.fields && v.value.fields["data"].JArr? then
      v.value.fields["data"].items
    else []
  }

  /** The `{ data: [...] }` envelope reads exactly like the bare array, and
      the result read again as an array is unchanged. */
  lemma EnvelopeIsTransparent(xs: seq<Json>, m: map<string, Json>, v: Option<Json>)
    ensures EnsureVariationOptionsArray(Some(JObj(m["data" := JArr(xs)]))) == xs
    ensures EnsureVariationOptionsArray(Some(JArr(xs))) == xs
    ensures EnsureVariationOptionsArray(Some(JArr(EnsureVariationOptionsArray(v)))) == EnsureVariationOptionsArray(v)
  {
  }

  /** Anything else, including `null`, `undefined`, strings and objects
      whose `data` is not an array, reads as no options. */
  lemma NonListReadsAsEmpty(v: Option<Json>)
    requires !(v.Some? && v.value.JArr?)
    requires !(v.Some? && v.value.JObj? && "data" in v.value.fields && v.value.fields["data"].JArr?)
    ensures EnsureVariationOptionsArray(v) == []
  {
  }

  /** `processOptions(options)`: the decoded value when the string form of
      `options` decodes, otherwise `options` itself. */
  function ProcessOptions(options: Json, parse: string -> Option<Json>): Json
  {
    var decoded := parse(ToStr(options));
    if decoded.Some? then decoded.value else options
  }

  /** Text written by a serializer that `parse` inverts comes back as the
      value it encodes; a value whose string form does not decode is kept
      as it is. */
  lemma ProcessOptionsDecodesStoredText(v: Json, show: Json -> string, parse: string -> Option<Json>, other: Json)
    requires parse(show(v)) == Some(v)
    requires parse(ToStr(other)).None?
    ensures ProcessOptions(JStr(show(v)), parse) == v
    ensures ProcessOptions(other, parse) == other
  {
  }
}
