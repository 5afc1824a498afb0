/**
 * The loosely shaped JavaScript values the admin front end reads from the
 * backend and writes back, and the handful of language operations the form
 * code relies on: truthiness, `??`, `?.`, `Number()`, `String()`, `===`,
 * object spread, `trim()` and `split(',')`.
 *
 * `undefined` is not a value of `Json`: an absent property, or an expression
 * that evaluates to `undefined`, is `None` of `Option<Json>`. A property that
 * holds `undefined` is treated as absent.
 */
module Js {
  import opened Wrappers

  datatype Json =
    | JNull
    | JBool(b: bool)
    | JNum(n: int)
    | JNaN
    | JStr(s: string)
    | JArr(items: seq<Json>)
    | JObj(fields: map<string, Json>)

  /** The result of `Number(v)`, restricted to integers. */
  datatype JsNumber = Int(i: int) | NaN

  /* ---------------------------------------------------------------- */
  /* Property access and `??`                                         */
  /* ---------------------------------------------------------------- */

  /** `v == null`: `undefined` or `null`. */
  predicate Nullish(v: Option<Json>)
  {
    v == None || v == Some(JNull)
  }

  /** The field `k` of a record, or `undefined`. */
  function Field(m: map<string, Json>, k: string): Option<Json>
  {
    if k in m then Some(m[k]) else None
  }

  /** `v?.[k]`: reading a property through optional chaining never throws;
      only objects carry the properties this model reads. */
  function Get(v: Option<Json>, k: string): Option<Json>
  {
    if v.Some? && v.value.JObj? then Field(v.value.fields, k) else None
  }

  /** `v0 ?? v1 ?? ... ?? vn`. */
  function Coalesce(vs: seq<Option<Json>>): Option<Json>
    requires |vs| > 0
  {
    if |vs| == 1 || !Nullish(vs[0]) then vs[0] else Coalesce(vs[1..])
  }

  /** `v ?? d` with a right operand that is neither `null` nor
      `undefined`. */
  function Or(v: Option<Json>, d: Json): Json
  {
    if Nullish(v) then d else v.value
  }

  /** `??` yields the first operand that is neither `null` nor `undefined`,
      or the last operand when every one of them is. */
  lemma {:induction false} CoalesceIsFirstDefined(vs: seq<Option<Json>>)
    requires |vs| > 0
    ensures (exists i :: 0 <= i < |vs| && !Nullish(vs[i])) ==>
              exists i :: 0 <= i < |vs| && Coalesce(vs) == vs[i] && !Nullish(vs[i]) &&
                forall j :: 0 <= j < i ==> Nullish(vs[j])
    ensures (forall i :: 0 <= i < |vs| ==> Nullish(vs[i])) ==> Coalesce(vs) == vs[|vs| - 1]
  {
    if |vs| > 1 && Nullish(vs[0]) {
      CoalesceIsFirstDefined(vs[1..]);
      assert forall j :: 1 <= j < |vs| ==> vs[j] == vs[1..][j - 1];
      if exists i :: 0 <= i < |vs| && !Nullish(vs[i]) {
        var i :| 0 <= i < |vs| && !Nullish(vs[i]);
        assert !Nullish(vs[1..][i - 1]);
        var i' :| 0 <= i' < |vs[1..]| && Coalesce(vs[1..]) == vs[1..][i'] && !Nullish(vs[1..][i']) &&
                  forall j :: 0 <= j < i' ==> Nullish(vs[1..][j]);
        assert Coalesce(vs) == vs[i' + 1];
      }
    }
  }

  /** The operand `??` picks, named by its position. */
  lemma {:induction false} CoalesceAt(vs: seq<Option<Json>>, i: nat)
    requires i < |vs| && !Nullish(vs[i])
    requires forall j :: 0 <= j < i ==> Nullish(vs[j])
    ensures Coalesce(vs) == vs[i]
  {
    if i > 0 {
      assert Nullish(vs[0]);
      CoalesceAt(vs[1..], i - 1);
    }
  }

  /** `Boolean(v)`. */
  predicate Truthy(v: Option<Json>)
  {
    match v
    case None => false
    case Some(x) =>
      match x
      case JNull => false
      case JBool(b) => b
      case JNum(n) => n != 0
      case JNaN => false
      case JStr(s) => s != ""
      case JArr(_) => true
      case JObj(_) => true
  }

  /** `a === b` on values. Composite values read from different places are
      never the same object, so only primitives can be strictly equal; `NaN`
      is not equal to itself, while `undefined === undefined` holds. */
  predicate StrictEq(a: Option<Json>, b: Option<Json>)
  {
    match (a, b)
    case (None, None) => true
    case (Some(JNull), Some(JNull)) => true
    case (Some(JBool(x)), Some(JBool(y))) => x == y
    case (Some(JNum(x)), Some(JNum(y))) => x == y
    case (Some(JStr(x)), Some(JStr(y))) => x == y
    case _ => false
  }

  /** lodash `isEmpty`: `null`/`undefined` and scalars are empty; strings,
      arrays and objects are empty when they hold nothing. */
  predicate IsEmptyValue(v: Option<Json>)
  {
    match v
    case None => true
    case Some(x) =>
      match x
      case JStr(s) => s == ""
      case JArr(xs) => |xs| == 0
      case JObj(m) => |m| == 0
      case _ => true
  }

  /* ---------------------------------------------------------------- */
  /* Strings                                                          */
  /* ---------------------------------------------------------------- */

  /** The characters `String.prototype.trim` removes: the ECMAScript
      WhiteSpace characters (tab, vertical tab, form feed, the byte order
      mark and every space separator of category Zs) and the four line
      terminators. */
  predicate IsWhite(c: char)
  {
    c == '\t' || c == '\U{000B}' || c == '\U{000C}' || c == '\U{FEFF}' ||
    c == ' ' || c == '\U{00A0}' || c == '\U{1680}' || ('\U{2000}' <= c <= '\U{200A}') ||
    c == '\U{202F}' || c == '\U{205F}' || c == '\U{3000}' ||
    c == '\n' || c == '\r' || c == '\U{2028}' || c == '\U{2029}'
  }

  predicate AllWhite(s: string)
  {
    forall i :: 0 <= i < |s| ==> IsWhite(s[i])
  }

  function TrimStart(s: string): (r: string)
    ensures |r| <= |s| && r == s[|s| - |r|..]
    ensures AllWhite(s[..|s| - |r|])
    ensures r == "" || !IsWhite(r[0])
  {
    if |s| > 0 && IsWhite(s[0]) then TrimStart(s[1..]) else s
  }

  function TrimEnd(s: string): (r: string)
    ensures |r| <= |s| && r == s[..|r|]
    ensures AllWhite(s[|r|..])
    ensures r == "" || !IsWhite(r[|r| - 1])
  {
    if |s| > 0 && IsWhite(s[|s| - 1]) then
      var r := TrimEnd(s[..|s| - 1]);
      assert s[|r|..] == s[..|s| - 1][|r|..] + [s[|s| - 1]];
      r
    else s
  }

  /** `s.trim()`: the input without its leading and trailing white space. */
  function Trim(s: string): (r: string)
    ensures |r| <= |s|
    ensures r == "" || (!IsWhite(r[0]) && !IsWhite(r[|r| - 1]))
  {
    TrimEnd(TrimStart(s))
  }

  /** Trimming removes white space only, and only at the two ends. */
  lemma TrimRemovesEdges(s: string)
    ensures exists pre, post :: s == pre + Trim(s) + post && AllWhite(pre) && AllWhite(post)
  {
    var a := TrimStart(s);
    var r := TrimEnd(a);
    var pre, post := s[..|s| - |a|], a[|r|..];
    ThreeParts(s, a, r);
    assert AllWhite(pre) && AllWhite(post);
    assert s == pre + r + post;
  }

  /** A suffix of a prefix cuts a sequence in three. */
  lemma ThreeParts(s: string, a: string, r: string)
    requires |a| <= |s| && a == s[|s| - |a|..]
    requires |r| <= |a| && r == a[..|r|]
    ensures s == s[..|s| - |a|] + r + a[|r|..]
  {
    assert a == r + a[|r|..];
  }

  /** The pieces joined back with the separator. */
  function Join(parts: seq<string>, sep: string): string
  {
    if |parts| == 0 then ""
    else if |parts| == 1 then parts[0]
    else parts[0] + sep + Join(parts[1..], sep)
  }

  /** `s.split(c)` for a one-character separator: at least one piece, none of
      which contains the separator, and joining them restores the input. */
  function Split(s: string, c: char): (r: seq<string>)
    ensures |r| >= 1
    ensures forall i :: 0 <= i < |r| ==> c !in r[i]
    ensures Join(r, [c]) == s
  {
    if |s| == 0 then [""]
    else
      var rest := Split(s[1..], c);
      if s[0] == c then
        [""] + rest
      else
        var r := [[s[0]] + rest[0]] + rest[1..];
        assert r[1..] == rest[1..];
        r
  }

  /** A string without the separator splits into itself. */
  lemma {:induction false} SplitWithoutSeparator(s: string, c: char)
    requires c !in s
    ensures Split(s, c) == [s]
  {
    if |s| > 0 {
      SplitWithoutSeparator(s[1..], c);
      assert [s[0]] + s[1..] == s;
    }
  }

  /** Splitting at the first separator. */
  lemma {:induction false} SplitAtFirst(a: string, c: char, b: string)
    requires c !in a
    ensures Split(a + [c] + b, c) == [a] + Split(b, c)
  {
    var s := a + [c] + b;
    if |a| == 0 {
      assert s == [c] + b;
      assert s[1..] == b;
    } else {
      assert s[1..] == a[1..] + [c] + b;
      SplitAtFirst(a[1..], c, b);
      assert [a[0]] + a[1..] == a;
    }
  }

  /** Joining pieces without the separator and splitting again gives the
      pieces back. */
  lemma {:induction false} SplitJoin(parts: seq<string>, c: char)
    requires |parts| > 0
    requires forall i :: 0 <= i < |parts| ==> c !in parts[i]
    ensures Split(Join(parts, [c]), c) == parts
  {
    if |parts| == 1 {
      SplitWithoutSeparator(parts[0], c);
    } else {
      SplitJoin(parts[1..], c);
      SplitAtFirst(parts[0], c, Join(parts[1..], [c]));
      assert parts == [parts[0]] + parts[1..];
    }
  }

  /* ---------------------------------------------------------------- */
  /* Number() and String() on integers                                */
  /* ---------------------------------------------------------------- */

  predicate IsDigit(c: char)
  {
    '0' <= c <= '9'
  }

  predicate AllDigits(s: string)
  {
    forall i :: 0 <= i < |s| ==> IsDigit(s[i])
  }

  function DigitValue(c: char): nat
    requires IsDigit(c)
  {
    (c as int) - ('0' as int)
  }

  function DigitChar(d: nat): (c: char)
    requires d < 10
    ensures IsDigit(c) && DigitValue(c) == d
  {
    (('0' as int) + d) as char
  }

  /** The value of a string of decimal digits, most significant first. */
  function DigitsValue(s: string): nat
    requires AllDigits(s)
  {
    if |s| == 0 then 0 else 10 * DigitsValue(s[..|s| - 1]) + DigitValue(s[|s| - 1])
  }

  /** Decimal representation of a natural number, without leading zeros. */
  function NatToString(n: nat): (r: string)
    ensures |r| > 0 && AllDigits(r)
    decreases n
  {
    if n < 10 then [DigitChar(n)] else NatToString(n / 10) + [DigitChar(n % 10)]
  }

  /** `String(i)` for an integer. */
  function IntToString(i: int): string
  {
    if i < 0 then "-" + NatToString(-i) else NatToString(i)
  }

  /** `Number(s)` for a string: white space around the numeral is ignored, an
      empty or blank string is 0, an optionally signed run of decimal digits
      is its value, anything else is NaN. */
  function StringToNumber(s: string): JsNumber
  {
    var t := Trim(s);
    if t == "" then Int(0)
    else if AllDigits(t) then Int(DigitsValue(t))
    else if |t| > 1 && (t[0] == '-' || t[0] == '+') && AllDigits(t[1..]) then
      if t[0] == '-' then Int(0 - DigitsValue(t[1..])) else Int(DigitsValue(t[1..]))
    else NaN
  }

  lemma {:induction false} DigitsOfNat(n: nat)
    ensures DigitsValue(NatToString(n)) == n
    decreases n
  {
    if n >= 10 {
      DigitsOfNat(n / 10);
      var s := NatToString(n);
      assert s[..|s| - 1] == NatToString(n / 10);
    }
  }

  /** `Number(String(i)) === i` for every integer. */
  lemma IntToStringRoundTrip(i: int)
    ensures StringToNumber(IntToString(i)) == Int(i)
  {
    var s := IntToString(i);
    if i < 0 {
      var d := NatToString(-i);
      DigitsOfNat(-i);
      assert s == "-" + d && s[1..] == d;
      assert !IsWhite(s[0]) && !IsWhite(s[|s| - 1]);
      TrimOfTrimmed(s);
      assert !AllDigits(s) by { assert !IsDigit(s[0]); }
      assert StringToNumber(s) == Int(0 - DigitsValue(d));
    } else {
      DigitsOfNat(i);
      assert !IsWhite(s[0]) && !IsWhite(s[|s| - 1]);
      TrimOfTrimmed(s);
    }
  }

  lemma TrimOfTrimmed(s: string)
    requires s != "" && !IsWhite(s[0]) && !IsWhite(s[|s| - 1])
    ensures Trim(s) == s
  {
  }

  /** `String(v)`. */
  function ToStr(v: Json): string
  {
    match v
    case JNull => "null"
    case JBool(b) => if b then "true" else "false"
    case JNum(n) => IntToString(n)
    case JNaN => "NaN"
    case JStr(s) => s
    case JArr(xs) =>
      // Array.prototype.join prints null elements as nothing
      Join(seq(|xs|, i requires 0 <= i < |xs| => if xs[i] == JNull then "" else ToStr(xs[i])), ",")
    case JObj(_) => "[object Object]"
  }

  /** `String(v)` where `v` may be `undefined`. */
  function StrOf(v: Option<Json>): string
  {
    match v
    case None => "undefined"
    case Some(x) => ToStr(x)
  }

  /** `Number(v)`. */
  function ToNumber(v: Option<Json>): JsNumber
  {
    match v
    case None => NaN
    case Some(x) =>
      match x
      case JNull => Int(0)
      case JBool(b) => if b then Int(1) else Int(0)
      case JNum(n) => Int(n)
      case JNaN => NaN
      case JStr(s) => StringToNumber(s)
      case JArr(_) => StringToNumber(ToStr(x))
      case JObj(_) => NaN
  }

  /** A `Number` as a value again (`NaN` stays `NaN`). */
  function FromNumber(n: JsNumber): Json
  {
    match n
    case Int(i) => JNum(i)
    case NaN => JNaN
  }

  /* ---------------------------------------------------------------- */
  /* Object spread and __typename stripping                           */
  /* ---------------------------------------------------------------- */

  /** The own enumerable properties of an array or string, keyed by index. */
  function IndexMap(xs: seq<Json>): map<string, Json>
  {
    if |xs| == 0 then map[]
    else IndexMap(xs[..|xs| - 1])[NatToString(|xs| - 1) := xs[|xs| - 1]]
  }

  /** The properties `{...v}` copies: nothing for `null`, `undefined` and
      other scalars, the fields of an object, the indexed elements of an
      array or the characters of a string. */
  function Spread(v: Option<Json>): map<string, Json>
  {
    match v
    case None => map[]
    case Some(x) =>
      match x
      case JObj(m) => m
      case JArr(xs) => IndexMap(xs)
      case JStr(s) => IndexMap(seq(|s|, i requires 0 <= i < |s| => JStr([s[i]])))
      case _ => map[]
  }

  const TYPENAME := "__typename"

  /** A value with every `__typename` property removed, at any depth. */
  function OmitTypename(v: Json): Json
  {
    match v
    case JArr(xs) => JArr(seq(|xs|, i requires 0 <= i < |xs| => OmitTypename(xs[i])))
    case JObj(m) => JObj(map k | k in m && k != TYPENAME :: OmitTypename(m[k]))
    case _ => v
  }

  /** `omitTypename` of a value that may be `undefined`. */
  function OmitTypenameOf(v: Option<Json>): Option<Json>
  {
    match v
    case None => None
    case Some(x) => Some(OmitTypename(x))
  }

  /** `{k0: v0, k1: v1, ...}` where an `undefined` value leaves its key out. */
  function Record(kvs: seq<(string, Option<Json>)>): map<string, Json>
  {
    if |kvs| == 0 then map[]
    else
      var m := Record(kvs[..|kvs| - 1]);
      var (k, v) := kvs[|kvs| - 1];
      if v.Some? then m[k := v.value] else m - {k}
  }

  /** `m[k] = v` where assigning `undefined` removes the key. */
  function SetField(m: map<string, Json>, k: string, v: Option<Json>): (r: map<string, Json>)
    ensures forall j :: Field(r, j) == if j == k then v else Field(m, j)
  {
    if v.Some? then m[k := v.value] else m - {k}
  }
}
