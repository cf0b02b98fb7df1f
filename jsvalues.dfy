/**
 * The JavaScript values that reach the handlers: query strings, JSON bodies and RPC inputs,
 * with the coercions the handlers apply to them (`!x`, `String(x)`, `x || null`).
 */
module JsValues {
  import opened Wrappers

  /** A JSON-ish value; numbers are restricted to integers. */
  datatype Value = Undefined | Null | Bool(b: bool) | Num(n: int) | Str(s: string)

  /** JavaScript truthiness: `undefined`, `null`, `false`, `0` and `""` are falsy. */
  predicate Truthy(v: Value)
  {
    match v
    case Undefined => false
    case Null => false
    case Bool(b) => b
    case Num(n) => n != 0
    case Str(s) => s != ""
  }

  predicate IsDigit(c: char) { '0' <= c <= '9' }

  function DigitChar(d: nat): (c: char)
    requires d < 10
    ensures IsDigit(c) && (c as int) - ('0' as int) == d
  {
    (('0' as int) + d) as char
  }

  function DigitValue(c: char): nat
    requires IsDigit(c)
  {
    (c as int) - ('0' as int)
  }

  /** The decimal numeral of `n`, as `String(n)` prints it. */
  function NatToString(n: nat): (s: string)
    ensures |s| >= 1
    ensures forall i :: 0 <= i < |s| ==> IsDigit(s[i])
    ensures s[0] == '0' ==> n == 0
  {
    if n < 10 then [DigitChar(n)] else NatToString(n / 10) + [DigitChar(n % 10)]
  }

  /** The value of a string of decimal digits (the empty string has value 0). */
  function DecimalValue(s: string): nat
    requires forall i :: 0 <= i < |s| ==> IsDigit(s[i])
  {
    if s == [] then 0 else DecimalValue(s[..|s| - 1]) * 10 + DigitValue(s[|s| - 1])
  }

  /** Reading back a printed numeral gives the number. */
  lemma {:induction false} NatToStringRoundTrip(n: nat)
    ensures DecimalValue(NatToString(n)) == n
  {
    var s := NatToString(n);
    if n >= 10 {
      NatToStringRoundTrip(n / 10);
      assert s[..|s| - 1] == NatToString(n / 10);
    }
  }

  /** `String(n)` for an integer. */
  function IntToString(n: int): (s: string)
    ensures |s| >= 1
    ensures n < 0 <==> s[0] == '-'
  {
    if n < 0 then "-" + NatToString(-n) else NatToString(n)
  }

  /** `String(v)`. */
  function ToStr(v: Value): string
  {
    match v
    case Undefined => "undefined"
    case Null => "null"
    case Bool(b) => if b then "true" else "false"
    case Num(n) => IntToString(n)
    case Str(s) => s
  }

  /** `v ? String(v) : null`, which is also `v || null` on a string-or-undefined value. */
  function NullIfFalsy(v: Value): (r: Option<string>)
    ensures r.None? <==> !Truthy(v)
    ensures v.Str? && v.s != "" ==> r == Some(v.s)
    ensures r.Some? ==> r.value != ""
  {
    if Truthy(v) then Some(ToStr(v)) else None
  }

  /** A parsed JSON object (request body, RPC input) as its list of members. */
  type Object = seq<(string, Value)>

  /** A parsed query string: member names and string values, in the order they arrived. */
  type Query = seq<(string, string)>

  /** `o[key]`: the first member with that name, `undefined` when there is none. */
  function Get(o: Object, key: string): (v: Value)
    ensures (forall i :: 0 <= i < |o| ==> o[i].0 != key) ==> v == Undefined
    ensures v != Undefined ==> exists i :: 0 <= i < |o| && o[i] == (key, v)
  {
    if o == [] then Undefined
    else if o[0].0 == key then o[0].1
    else Get(o[1..], key)
  }

  /** `req.query[key]`: a string, or `undefined` when the parameter is absent. */
  function QueryParam(q: Query, key: string): (v: Value)
    ensures v.Undefined? || v.Str?
    ensures v.Undefined? <==> forall i :: 0 <= i < |q| ==> q[i].0 != key
    ensures v.Str? ==> exists i :: 0 <= i < |q| && q[i] == (key, v.s)
  {
    if q == [] then Undefined
    else if q[0].0 == key then Str(q[0].1)
    else QueryParam(q[1..], key)
  }
}
