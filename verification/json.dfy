/** JSON values as they travel between the model service, the relay and the
    browser, with the few pieces of JavaScript semantics the core relies on:
    property lookup, truthiness, object spread and string coercion. */
module JsonValues {
  import opened Outcomes
  import opened Text

  /** A parsed JSON value. Numbers are kept as exact reals; object key order
      is not kept. */
  datatype Json =
    | JNull
    | JBool(b: bool)
    | JNum(x: real)
    | JStr(s: string)
    | JArr(items: seq<Json>)
    | JObj(fields: map<string, Json>)

  /** `v.key` for the named properties the core reads (`imageBase64`,
      `solarInstalled`, `confidence`, `roofType`, `reasoning`, `timestamp`,
      `boundingBox`): an own field of an object, otherwise `undefined`
      (`None`); `null?.key` is `undefined` as well. */
  function Prop(v: Json, key: string): (r: Option<Json>)
    ensures r.Some? <==> v.JObj? && key in v.fields
    ensures r.Some? ==> r.value == v.fields[key]
  {
    if v.JObj? && key in v.fields then Some(v.fields[key]) else None
  }

  /** JavaScript truthiness of a possibly-undefined value. JSON has no NaN,
      so the falsy values are `undefined`, `null`, `false`, `0` and `""`. */
  predicate Truthy(v: Option<Json>)
    ensures Truthy(v) <==> v.Some? && v.value !in {JNull, JBool(false), JNum(0.0), JStr("")}
  {
    match v
    case None => false
    case Some(JNull) => false
    case Some(JBool(b)) => b
    case Some(JNum(x)) => x != 0.0
    case Some(JStr(s)) => s != ""
    case Some(_) => true
  }

  /** `x ?? fallback` is `fallback` exactly when x is `undefined` or `null`. */
  predicate Nullish(v: Option<Json>)
    ensures Nullish(v) ==> !Truthy(v)
    ensures v.Some? && (v.value.JBool? || v.value.JNum? || v.value.JStr?) ==> !Nullish(v)
  {
    v.None? || v.value.JNull?
  }

  /** A decimal digit character. */
  function Digit(d: nat): (c: char)
    requires d < 10
    ensures '0' <= c <= '9'
    ensures c as int - '0' as int == d
  {
    (d + '0' as int) as char
  }

  /** `String(n)` for an array index: its decimal digits, no leading zero. */
  function IndexKey(n: nat): (s: string)
    ensures |s| >= 1
    ensures |s| == 1 <==> n < 10
    decreases n
  {
    if n < 10 then [Digit(n)] else IndexKey(n / 10) + [Digit(n % 10)]
  }

  /** The value of a decimal digit character; other characters read as 0. */
  function DigitValue(c: char): (d: nat)
    ensures d < 10
  {
    if '0' <= c <= '9' then c as int - '0' as int else 0
  }

  /** Reads decimal digits back as a number (the inverse of `IndexKey`). */
  function ParseIndex(s: string): nat
  {
    if s == [] then 0 else ParseIndex(s[..|s| - 1]) * 10 + DigitValue(s[|s| - 1])
  }

  /** Index keys read back as the index they were written from; hence
      distinct indices have distinct keys, and spreading an array or a string
      into an object loses no element. */
  lemma {:induction false} ParseIndexKey(n: nat)
    ensures ParseIndex(IndexKey(n)) == n
  {
    var k := IndexKey(n);
    if n >= 10 {
      ParseIndexKey(n / 10);
      assert k[..|k| - 1] == IndexKey(n / 10);
    }
  }

  /** The own fields that `{...v}` copies: an object's fields, an array's
      elements or a string's characters under their index keys, and nothing
      for `null`, booleans and numbers. */
  function Spread(v: Json): (m: map<string, Json>)
    ensures v.JObj? ==> m == v.fields
    ensures v.JNull? || v.JBool? || v.JNum? ==> m == map[]
    ensures v.JArr? ==> |m| == |v.items| && forall i :: 0 <= i < |v.items| ==> IndexKey(i) in m && m[IndexKey(i)] == v.items[i]
    ensures v.JStr? ==> |m| == |v.s| && forall i :: 0 <= i < |v.s| ==> IndexKey(i) in m && m[IndexKey(i)] == JStr([v.s[i]])
  {
    match v
    case JObj(fields) => fields
    case JArr(xs) => IndexMap(xs)
    case JStr(s) => IndexMap(seq(|s|, i requires 0 <= i < |s| => JStr([s[i]])))
    case _ => map[]
  }

  /** The index keys of the first `n` elements. */
  function IndexKeys(n: nat): (keys: set<string>)
    ensures |keys| == n
    ensures forall i :: 0 <= i < n ==> IndexKey(i) in keys
    ensures forall k :: k in keys ==> ParseIndex(k) < n
  {
    if n == 0 then {}
    else
      ParseIndexKey(n - 1);
      IndexKeys(n - 1) + {IndexKey(n - 1)}
  }

  /** Elements under their index keys. */
  function IndexMap(xs: seq<Json>): (m: map<string, Json>)
    ensures |m| == |xs|
    ensures forall i :: 0 <= i < |xs| ==> IndexKey(i) in m && m[IndexKey(i)] == xs[i]
  {
    var m := map k | k in IndexKeys(|xs|) :: xs[ParseIndex(k)];
    assert m.Keys == IndexKeys(|xs|);
    assert forall i :: 0 <= i < |xs| ==> m[IndexKey(i)] == xs[i] by {
      forall i | 0 <= i < |xs| ensures m[IndexKey(i)] == xs[i] {
        ParseIndexKey(i);
      }
    }
    m
  }

  /** `String(v)` as `Array.prototype.join` applies it to a non-null element:
      numbers go through `show`, an array joins its elements with `,` (null
      elements becoming ""), an object prints as "[object Object]". A
      boolean or a number never writes a comma or a line break (given that
      `show` does not), while an array of two or more elements always writes
      a comma. */
  function Coerce(v: Json, show: real -> string): (s: string)
    ensures v.JStr? ==> s == v.s
    ensures v.JBool? ==> (s == "true" <==> v.b) && (s == "false" <==> !v.b)
    ensures v.JNum? ==> s == show(v.x)
    ensures PlainNumbers(show) && (v.JBool? || v.JNum?) ==> PlainCell(s)
    ensures v.JArr? && |v.items| >= 2 ==> ',' in s
  {
    match v
    case JNull => "null"
    case JBool(b) => if b then "true" else "false"
    case JNum(x) => show(x)
    case JStr(s) => s
    case JArr(xs) =>
      var parts := seq(|xs|, k requires 0 <= k < |xs| => if xs[k].JNull? then "" else Coerce(xs[k], show));
      if |parts| >= 2 then CountJoinSeparator(parts, ','); Join(parts, ',')
      else Join(parts, ',')
    case JObj(_) => "[object Object]"
  }

  /** JavaScript's number-to-string conversion never writes a comma or a
      line break. */
  ghost predicate PlainNumbers(show: real -> string)
  {
    forall x :: ',' !in show(x) && '\n' !in show(x)
  }
}
