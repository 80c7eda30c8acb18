/** JavaScript values as they come out of `JSON.parse`, and the handful of
    JavaScript operations the catalog engine applies to them: optional
    indexing (`v?.[i]`), truthiness, `Array.isArray` and string conversion
    (`String(v)` / template-literal interpolation). */
module JsValue {
  import opened Wrappers

  /** A parsed JSON value. Objects are kept opaque: the engine never reads
      a named property of a payload object. */
  datatype Json =
    | JNull
    | JBool(b: bool)
    | JNum(n: int)
    | JStr(s: string)
    | JArr(elems: seq<Json>)
    | JObj

  /** `v?.[i]`, where `None` stands for `undefined`. Indexing an array past
      its end, or anything that is neither an array nor a string, yields
      `undefined`; indexing a string yields a one-character string; and the
      optional chain stops at `null` and `undefined` instead of throwing. */
  function Get(v: Option<Json>, i: nat): (r: Option<Json>)
    ensures r.Some? <==>
      && v.Some?
      && ((v.value.JArr? && i < |v.value.elems|) || (v.value.JStr? && i < |v.value.s|))
    ensures r.Some? && v.value.JArr? ==> r.value == v.value.elems[i]
    ensures r.Some? && v.value.JStr? ==> r.value == JStr([v.value.s[i]])
  {
    match v
    case Some(JArr(xs)) => if i < |xs| then Some(xs[i]) else None
    case Some(JStr(s)) => if i < |s| then Some(JStr([s[i]])) else None
    case _ => None
  }

  /** JavaScript truthiness of a defined value. */
  predicate Truthy(v: Json) {
    match v
    case JNull => false
    case JBool(b) => b
    case JNum(n) => n != 0
    case JStr(s) => s != ""
    case JArr(_) => true
    case JObj => true
  }

  /** Truthiness of a possibly-`undefined` value. */
  predicate TruthyOpt(v: Option<Json>) {
    v.Some? && Truthy(v.value)
  }

  /** `Array.isArray(v)`. */
  predicate IsArray(v: Option<Json>) {
    v.Some? && v.value.JArr?
  }

  function DigitChar(d: nat): char
    requires d < 10
  {
    ('0' as int + d) as char
  }

  predicate IsDigit(c: char) {
    '0' <= c <= '9'
  }

  /** The number a string of decimal digits denotes. */
  function DecimalValue(s: string): nat
    requires forall k :: 0 <= k < |s| ==> IsDigit(s[k])
  {
    if |s| == 0 then 0
    else
      assert IsDigit(s[|s| - 1]);
      10 * DecimalValue(s[..|s| - 1]) + (s[|s| - 1] as int - '0' as int)
  }

  /** The decimal numeral of `n`: digits only, no leading zero, denoting
      `n`. */
  function NatToDecimal(n: nat): (r: string)
    ensures |r| > 0
    ensures forall k :: 0 <= k < |r| ==> IsDigit(r[k])
    ensures DecimalValue(r) == n
    ensures |r| > 1 ==> r[0] != '0'
    decreases n
  {
    if n < 10 then [DigitChar(n)]
    else
      var init := NatToDecimal(n / 10);
      var r := init + [DigitChar(n % 10)];
      assert r[..|r| - 1] == init;
      r
  }

  /** `String(v)` for a parsed JSON value: arrays are joined with `,`, and
      a `null` element of an array renders as the empty string. */
  function ToJsString(v: Json): (r: string)
    ensures v.JStr? ==> r == v.s
    ensures v.JNull? ==> r == "null"
    ensures v.JBool? ==> r == if v.b then "true" else "false"
    ensures v.JArr? && |v.elems| == 0 ==> r == ""
    ensures v.JObj? ==> r == "[object Object]"
    decreases v, 1, 0
  {
    match v
    case JNull => "null"
    case JBool(b) => if b then "true" else "false"
    case JNum(n) => if n < 0 then "-" + NatToDecimal(-n) else NatToDecimal(n)
    case JStr(s) => s
    case JArr(xs) => JoinElements(v, xs)
    case JObj => "[object Object]"
  }

  /** How one array element appears in its array's string: `null` as the
      empty string, anything else as its own string. */
  function ElementString(x: Json): string {
    if x.JNull? then "" else ToJsString(x)
  }

  /** A trailing stretch `rest` of the elements of the array `parent`. */
  predicate IsSuffixOf(rest: seq<Json>, parent: Json) {
    parent.JArr? && |rest| <= |parent.elems| && rest == parent.elems[|parent.elems| - |rest|..]
  }

  /** The trailing elements `rest` of the array `parent`, converted and
      joined with commas. */
  function JoinElements(parent: Json, rest: seq<Json>): string
    requires IsSuffixOf(rest, parent)
    decreases parent, 0, |rest|
  {
    if |rest| == 0 then ""
    else
      var k := |parent.elems| - |rest|;
      assert rest[0] == parent.elems[k] && rest[1..] == parent.elems[k + 1..];
      var piece := ElementString(rest[0]);
      if |rest| == 1 then piece else piece + "," + JoinElements(parent, rest[1..])
  }

  /** Joining a stretch of elements does not depend on which array they
      were taken from. */
  lemma {:induction false} JoinAnyParent(p: Json, q: Json, rest: seq<Json>)
    requires IsSuffixOf(rest, p) && IsSuffixOf(rest, q)
    ensures JoinElements(p, rest) == JoinElements(q, rest)
    decreases |rest|
  {
    if |rest| > 1 {
      assert rest[1..] == p.elems[|p.elems| - |rest| + 1..];
      assert rest[1..] == q.elems[|q.elems| - |rest| + 1..];
      JoinAnyParent(p, q, rest[1..]);
    }
  }

  /** `String` of a non-empty array: its first element's string, then, when
      more elements follow, a comma and the string of the rest. */
  lemma ArrayString(xs: seq<Json>)
    requires |xs| > 0
    ensures ToJsString(JArr(xs)) ==
      ElementString(xs[0]) + (if |xs| == 1 then "" else "," + ToJsString(JArr(xs[1..])))
  {
    if |xs| > 1 {
      var ys := xs[1..];
      assert ys == JArr(xs).elems[1..];
      assert ToJsString(JArr(ys)) == JoinElements(JArr(ys), ys);
      JoinAnyParent(JArr(xs), JArr(ys), ys);
    }
  }

  /** `String` of a number: its decimal numeral, non-empty and without a
      leading zero, after a `-` when it is negative. */
  lemma NumberString(n: int)
    ensures var r := ToJsString(JNum(n));
      if n >= 0 then
        && |r| > 0 && (|r| > 1 ==> r[0] != '0')
        && (forall k :: 0 <= k < |r| ==> IsDigit(r[k])) && DecimalValue(r) == n
      else
        && |r| > 1 && r[0] == '-' && (|r| > 2 ==> r[1] != '0')
        && (forall k :: 1 <= k < |r| ==> IsDigit(r[k])) && DecimalValue(r[1..]) == -n
  {
    if n < 0 {
      var r := ToJsString(JNum(n));
      assert r[1..] == NatToDecimal(-n);
    }
  }
}
