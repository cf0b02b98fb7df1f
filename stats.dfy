/**
 * `GET /monetag/stats`: impression and click counts and the revenue total of the events
 * fetched for one e-mail address. Revenue strings go through a model of JavaScript's
 * `parseFloat` on exact reals, and the total is printed as `toFixed(4)` prints it.
 */
module Stats {
  import opened Wrappers
  import opened JsValues
  import opened Sorting
  import opened Schema
  import Db

  const EmailFieldError := "Missing required field: email"
  const InternalErrorMessage := "Internal server error"

  // ---------------------------------------------------------------------------------------
  // parseFloat

  /** ECMAScript white space and line terminators, which `parseFloat` skips at the start. */
  predicate IsSpace(c: char)
  {
    || c == ' ' || c == '\t' || c == '\n' || c == '\r' || c == 11 as char || c == 12 as char
    || c == 0xA0 as char || c == 0x1680 as char || (0x2000 as char <= c <= 0x200A as char)
    || c == 0x2028 as char || c == 0x2029 as char || c == 0x202F as char || c == 0x205F as char
    || c == 0x3000 as char || c == 0xFEFF as char
  }

  /** The string without its leading white space. */
  function TrimStart(s: string): (r: string)
    ensures |r| <= |s| && r == s[|s| - |r|..]
    ensures r == [] || !IsSpace(r[0])
    ensures forall i :: 0 <= i < |s| - |r| ==> IsSpace(s[i])
  {
    if s != [] && IsSpace(s[0]) then TrimStart(s[1..]) else s
  }

  /** The length of the run of decimal digits at the head of `s`. */
  function DigitRun(s: string): (n: nat)
    ensures n <= |s|
    ensures forall i :: 0 <= i < n ==> IsDigit(s[i])
    ensures n == |s| || !IsDigit(s[n])
  {
    if s == [] || !IsDigit(s[0]) then 0 else 1 + DigitRun(s[1..])
  }

  function Pow10(n: nat): (r: nat)
    ensures r >= 1
  {
    if n == 0 then 1 else 10 * Pow10(n - 1)
  }

  /** The string after a leading `+` or `-`. */
  function Unsigned(t: string): string
  {
    if t != [] && (t[0] == '-' || t[0] == '+') then t[1..] else t
  }

  /** A decimal literal without sign and exponent: `whole.frac`, `frac` having `fracDigits` digits. */
  datatype Literal = Literal(whole: nat, frac: nat, fracDigits: nat, rest: string)

  function LiteralValue(l: Literal): real
  {
    l.whole as real + l.frac as real / Pow10(l.fracDigits) as real
  }

  /**
   * `digits [. digits]` or `. digits` at the head of `s`, with what follows; at least one
   * digit is needed.
   */
  function Mantissa(s: string): (r: Option<Literal>)
    ensures r.Some? <==> (s != [] && IsDigit(s[0])) || (|s| >= 2 && s[0] == '.' && IsDigit(s[1]))
    ensures r.Some? ==> |r.value.rest| < |s|
  {
    var ci := DigitRun(s);
    var whole := DecimalValue(s[..ci]);
    var t := s[ci..];
    if t != [] && t[0] == '.' then
      var cf := DigitRun(t[1..]);
      if ci + cf == 0 then None
      else Some(Literal(whole, DecimalValue(t[1..][..cf]), cf, t[1..][cf..]))
    else if ci == 0 then None
    else Some(Literal(whole, 0, 0, t))
  }

  /** The exponent `e[+-]digits` at the head of `s`, or 0 when there is no complete one. */
  function Exponent(s: string): int
  {
    if s != [] && (s[0] == 'e' || s[0] == 'E') then
      var u := Unsigned(s[1..]);
      var ce := DigitRun(u);
      if ce == 0 then 0
      else if s[1..] != [] && s[1] == '-' then -(DecimalValue(u[..ce]) as int) else DecimalValue(u[..ce])
    else 0
  }

  /** `m` times ten to the power `e`. */
  function Scale(m: real, e: int): real
  {
    if e >= 0 then m * Pow10(e) as real else m / Pow10(-e) as real
  }

  /**
   * `parseFloat(s)`: the value of the longest decimal literal after leading white space, or
   * `None` for NaN when no digit can start one.
   */
  function ParseFloat(s: string): (r: Option<real>)
    ensures var u := Unsigned(TrimStart(s));
      r.Some? <==> (u != [] && IsDigit(u[0])) || (|u| >= 2 && u[0] == '.' && IsDigit(u[1]))
  {
    var t := TrimStart(s);
    match Mantissa(Unsigned(t))
    case None => None
    case Some(l) =>
      var v := Scale(LiteralValue(l), Exponent(l.rest));
      Some(if t != [] && t[0] == '-' then -v else v)
  }

  lemma {:induction false} DigitRunOf(p: string, rest: string)
    requires forall i :: 0 <= i < |p| ==> IsDigit(p[i])
    requires rest == [] || !IsDigit(rest[0])
    ensures DigitRun(p + rest) == |p|
  {
    if p != [] {
      assert (p + rest)[1..] == p[1..] + rest;
      DigitRunOf(p[1..], rest);
    }
  }

  /** A string that starts with a digit is its own trimmed, unsigned form. */
  lemma StartsWithDigit(s: string)
    requires s != [] && IsDigit(s[0])
    ensures TrimStart(s) == s && Unsigned(s) == s
  {
    assert '0' <= s[0] <= '9';
    assert !IsSpace(s[0]);
    assert s[0] != '-' && s[0] != '+';
  }

  /** A numeral followed by something that cannot continue it. */
  lemma MantissaOfNumeral(p: string, rest: string)
    requires p != [] && forall i :: 0 <= i < |p| ==> IsDigit(p[i])
    requires rest == [] || (!IsDigit(rest[0]) && rest[0] != '.')
    ensures Mantissa(p + rest) == Some(Literal(DecimalValue(p), 0, 0, rest))
  {
    DigitRunOf(p, rest);
    assert (p + rest)[..|p|] == p;
    assert (p + rest)[|p|..] == rest;
  }

  /** `whole.frac` with nothing after it. */
  lemma MantissaOfDecimal(whole: string, frac: string)
    requires whole != [] && forall i :: 0 <= i < |whole| ==> IsDigit(whole[i])
    requires forall i :: 0 <= i < |frac| ==> IsDigit(frac[i])
    ensures Mantissa(whole + "." + frac) == Some(Literal(DecimalValue(whole), DecimalValue(frac), |frac|, ""))
  {
    var s := whole + "." + frac;
    assert s == whole + ("." + frac);
    DigitRunOf(whole, "." + frac);
    assert s[..|whole|] == whole;
    var t := s[|whole|..];
    assert t == "." + frac;
    assert t[1..] == frac;
    assert frac + [] == frac;
    DigitRunOf(frac, []);
    assert frac[..|frac|] == frac;
    assert frac[|frac|..] == "";
  }

  /** `whole.frac` followed by text that cannot continue the fraction. */
  lemma MantissaOfDecimalThen(whole: string, frac: string, rest: string)
    requires whole != [] && forall i :: 0 <= i < |whole| ==> IsDigit(whole[i])
    requires forall i :: 0 <= i < |frac| ==> IsDigit(frac[i])
    requires rest == [] || !IsDigit(rest[0])
    ensures Mantissa(whole + "." + frac + rest) == Some(Literal(DecimalValue(whole), DecimalValue(frac), |frac|, rest))
  {
    var t := "." + (frac + rest);
    DecimalShape(whole, frac, rest);
    SplitDigits(whole, t);
    SplitDigits(frac, rest);
  }

  /** Where a run of digits ends. */
  lemma SplitDigits(p: string, t: string)
    requires forall i :: 0 <= i < |p| ==> IsDigit(p[i])
    requires t == [] || !IsDigit(t[0])
    ensures DigitRun(p + t) == |p| && (p + t)[..|p|] == p && (p + t)[|p|..] == t
  {
    DigitRunOf(p, t);
  }

  lemma DecimalShape(whole: string, frac: string, rest: string)
    ensures whole + "." + frac + rest == whole + ("." + (frac + rest))
    ensures ("." + (frac + rest))[0] == '.' && ("." + (frac + rest))[1..] == frac + rest
  {
  }

  /** Text after `whole.frac` that starts no exponent is ignored: `parseFloat("2.5xyz")` is 2.5. */
  lemma ParseIgnoresTrailing(whole: string, frac: string, rest: string)
    requires whole != [] && forall i :: 0 <= i < |whole| ==> IsDigit(whole[i])
    requires forall i :: 0 <= i < |frac| ==> IsDigit(frac[i])
    requires rest == [] || (!IsDigit(rest[0]) && rest[0] != 'e' && rest[0] != 'E')
    ensures ParseFloat(whole + "." + frac + rest) ==
      Some(LiteralValue(Literal(DecimalValue(whole), DecimalValue(frac), |frac|, "")))
  {
    var l := Literal(DecimalValue(whole), DecimalValue(frac), |frac|, rest);
    ParseDecimalThen(whole, frac, rest);
    assert Exponent(rest) == 0;
    UnscaledValue(l, "");
  }

  /** `whole.frac` followed by text that cannot continue the fraction: the literal scaled by that text's exponent. */
  lemma ParseDecimalThen(whole: string, frac: string, rest: string)
    requires whole != [] && forall i :: 0 <= i < |whole| ==> IsDigit(whole[i])
    requires forall i :: 0 <= i < |frac| ==> IsDigit(frac[i])
    requires rest == [] || !IsDigit(rest[0])
    ensures ParseFloat(whole + "." + frac + rest) ==
      Some(Scale(LiteralValue(Literal(DecimalValue(whole), DecimalValue(frac), |frac|, rest)), Exponent(rest)))
  {
    MantissaOfDecimalThen(whole, frac, rest);
    HeadOfDecimal(whole, frac, rest);
    ParseOfLiteral(whole + "." + frac + rest, Literal(DecimalValue(whole), DecimalValue(frac), |frac|, rest));
  }

  /** With exponent 0 the value is the literal's, whatever text follows it. */
  lemma UnscaledValue(l: Literal, rest: string)
    ensures Scale(LiteralValue(l), 0) == LiteralValue(l.(rest := rest))
  {
    assert Pow10(0) == 1;
  }

  /** A complete exponent scales `whole.frac` by that power of ten: `parseFloat("1.5e2")` is 150. */
  lemma ParseScaled(whole: string, frac: string, exp: string, rest: string)
    requires whole != [] && forall i :: 0 <= i < |whole| ==> IsDigit(whole[i])
    requires forall i :: 0 <= i < |frac| ==> IsDigit(frac[i])
    requires exp != [] && forall i :: 0 <= i < |exp| ==> IsDigit(exp[i])
    requires rest == [] || !IsDigit(rest[0])
    ensures ParseFloat(whole + "." + frac + ("e" + exp + rest)) ==
      Some(Scale(LiteralValue(Literal(DecimalValue(whole), DecimalValue(frac), |frac|, "")), DecimalValue(exp)))
  {
    var tail := "e" + exp + rest;
    var l := Literal(DecimalValue(whole), DecimalValue(frac), |frac|, tail);
    assert tail[0] == 'e';
    ParseDecimalThen(whole, frac, tail);
    ExponentOf(exp, rest);
    Rescale(whole + "." + frac + tail, l, DecimalValue(exp));
  }

  lemma Rescale(s: string, l: Literal, e: int)
    requires ParseFloat(s) == Some(Scale(LiteralValue(l), Exponent(l.rest))) && Exponent(l.rest) == e
    ensures ParseFloat(s) == Some(Scale(LiteralValue(l.(rest := "")), e))
  {
  }

  /** `parseFloat` of a string that starts with a digit: its literal, scaled by its exponent. */
  lemma ParseOfLiteral(s: string, l: Literal)
    requires s != [] && IsDigit(s[0]) && Mantissa(s) == Some(l)
    ensures ParseFloat(s) == Some(Scale(LiteralValue(l), Exponent(l.rest)))
  {
    StartsWithDigit(s);
  }

  lemma HeadOfDecimal(whole: string, frac: string, rest: string)
    requires whole != []
    ensures (whole + "." + frac + rest)[0] == whole[0]
  {
  }

  /** The exponent `e` followed by digits and then something that cannot continue them. */
  lemma ExponentOf(exp: string, rest: string)
    requires exp != [] && forall i :: 0 <= i < |exp| ==> IsDigit(exp[i])
    requires rest == [] || !IsDigit(rest[0])
    ensures Exponent("e" + exp + rest) == DecimalValue(exp)
  {
    var u := exp + rest;
    SplitDigits(exp, rest);
    assert u[0] == exp[0];
    StartsWithDigit(u);
    ExponentMarker(u);
    Regroup("e", exp, rest);
  }

  lemma Regroup(a: string, b: string, c: string)
    ensures a + b + c == a + (b + c)
  {
  }

  lemma ExponentMarker(u: string)
    requires u != [] && IsDigit(u[0])
    ensures Exponent("e" + u) == DecimalValue(u[..DigitRun(u)])
  {
    StartsWithDigit(u);
    var t := "e" + u;
    assert t[0] == 'e' && t[1..] == u;
  }

  /** A string whose mantissa is all of it reads as that mantissa. */
  lemma ParseWhole(s: string, l: Literal)
    requires s != [] && IsDigit(s[0])
    requires Mantissa(s) == Some(l) && l.rest == ""
    ensures ParseFloat(s) == Some(LiteralValue(l))
  {
    StartsWithDigit(s);
    assert Exponent("") == 0;
  }

  /** A minus sign in front negates the value. */
  lemma ParseNegated(s: string, l: Literal)
    requires s != [] && IsDigit(s[0])
    requires Mantissa(s) == Some(l) && l.rest == ""
    ensures ParseFloat("-" + s) == Some(-LiteralValue(l))
  {
    var t := "-" + s;
    assert !IsSpace(t[0]);
    assert TrimStart(t) == t;
    assert Unsigned(t) == s;
    assert Exponent("") == 0;
  }

  /** A plain numeral reads as its value. */
  lemma ParseNumeral(n: nat)
    ensures ParseFloat(NatToString(n)) == Some(n as real)
  {
    var s := NatToString(n);
    assert s + [] == s;
    MantissaOfNumeral(s, []);
    NatToStringRoundTrip(n);
    var l := Literal(n, 0, 0, "");
    assert Mantissa(s) == Some(l);
    ParseWhole(s, l);
    assert LiteralValue(l) == n as real by {
      assert Pow10(0) == 1;
      assert 0 as real / 1 as real == 0.0;
    }
  }

  /** `whole.frac` reads as `whole + frac / 10^|frac|`. */
  lemma ParseDecimal(whole: string, frac: string)
    requires whole != [] && forall i :: 0 <= i < |whole| ==> IsDigit(whole[i])
    requires forall i :: 0 <= i < |frac| ==> IsDigit(frac[i])
    ensures ParseFloat(whole + "." + frac) == Some(LiteralValue(Literal(DecimalValue(whole), DecimalValue(frac), |frac|, "")))
  {
    MantissaOfDecimal(whole, frac);
    assert (whole + "." + frac)[0] == whole[0];
    ParseWhole(whole + "." + frac, Literal(DecimalValue(whole), DecimalValue(frac), |frac|, ""));
  }

  /** A typical revenue string of the ad network. */
  lemma ParseRevenueExample()
    ensures ParseFloat("0.0050") == Some(0.005)
  {
    var s: string := "0.0050";
    assert s == "0" + "." + "0050";
    assert "0050"[..3] == "005" && "005"[..2] == "00" && "00"[..1] == "0";
    assert DecimalValue("0050") == 50;
    assert DecimalValue("0") == 0;
    assert Pow10(4) == 10000;
    ParseDecimal("0", "0050");
  }

  /** The empty string is NaN (so the fold needs its `|| '0'`). */
  lemma ParseEmptyIsNaN()
    ensures ParseFloat("") == None
  {
    assert TrimStart("") == "" && Unsigned("") == "";
  }

  /** Text that cannot start a number is NaN. */
  lemma ParseWordIsNaN()
    ensures ParseFloat("abc") == None
  {
    var u := Unsigned(TrimStart("abc"));
    assert !IsSpace('a');
    assert TrimStart("abc") == "abc";
    assert u == "abc" && u[0] == 'a';
  }

  /** Leading space and a sign do not make a number of a bare dot. */
  lemma ParseBareSignIsNaN()
    ensures ParseFloat(" -.") == None
  {
    var t := TrimStart(" -.");
    assert IsSpace(' ') && !IsSpace('-');
    assert " -."[1..] == "-.";
    assert TrimStart("-.") == "-.";
    assert t == "-.";
    assert Unsigned(t) == ".";
  }

  // ---------------------------------------------------------------------------------------
  // toFixed(4)

  /** The last `w` decimal digits of `k`, zero-padded on the left. */
  function Padded(k: nat, w: nat): (r: string)
    requires k < Pow10(w)
    ensures |r| == w && (forall i :: 0 <= i < w ==> IsDigit(r[i])) && DecimalValue(r) == k
  {
    if w == 0 then []
    else
      var r := Padded(k / 10, w - 1) + [DigitChar(k % 10)];
      assert r[..|r| - 1] == Padded(k / 10, w - 1);
      r
  }

  /**
   * `x.toFixed(4)`: the sign, then the multiple of 1/10000 nearest to |x| (the larger one on a
   * tie) with four decimals. Reading it back gives a value within 1/20000 of `x`.
   */
  function ToFixed4(x: real): (r: string)
    ensures ParseFloat(r).Some?
    ensures -0.00005 <= ParseFloat(r).value - x <= 0.00005
  {
    var a := if x < 0.0 then -x else x;
    var n := (a * 10000.0 + 0.5).Floor;
    assert n >= 0;
    var body := NatToString(n / 10000) + "." + Padded(n % 10000, 4);
    var r := (if x < 0.0 then "-" else "") + body;
    ReadFixed(x, n, body, r);
    r
  }

  lemma ReadFixed(x: real, n: int, body: string, r: string)
    requires n >= 0 && n as real <= (if x < 0.0 then -x else x) * 10000.0 + 0.5 < n as real + 1.0
    requires body == NatToString(n / 10000) + "." + Padded(n % 10000, 4)
    requires r == (if x < 0.0 then "-" else "") + body
    ensures ParseFloat(r).Some?
    ensures -0.00005 <= ParseFloat(r).value - x <= 0.00005
  {
    var whole, frac := NatToString(n / 10000), Padded(n % 10000, 4);
    MantissaOfDecimal(whole, frac);
    NatToStringRoundTrip(n / 10000);
    var l := Literal(n / 10000, n % 10000, 4, "");
    assert Mantissa(body) == Some(l);
    assert body[0] == whole[0];
    FixedValue(x, n, l);
    if x < 0.0 {
      ParseNegated(body, l);
      assert r == "-" + body;
    } else {
      ParseWhole(body, l);
      assert r == body;
    }
  }

  /** The arithmetic of `ReadFixed`: `n / 10000` is within 1/20000 of |x|. */
  lemma FixedValue(x: real, n: int, l: Literal)
    requires n >= 0 && n as real <= (if x < 0.0 then -x else x) * 10000.0 + 0.5 < n as real + 1.0
    requires l == Literal(n / 10000, n % 10000, 4, "")
    ensures var v := if x < 0.0 then -LiteralValue(l) else LiteralValue(l);
      -0.00005 <= v - x <= 0.00005
  {
    assert Pow10(4) == 10000;
    assert LiteralValue(l) == n as real / 10000.0;
  }

  // ---------------------------------------------------------------------------------------
  // The revenue fold and the handler

  /** One event's share of the total: `parseFloat(e.revenue || '0')`, with NaN counting 0. */
  function Revenue(e: AdEvent): (r: real)
    ensures e.revenue.None? || e.revenue == Some("") ==> r == 0.0
    ensures e.revenue.Some? && ParseFloat(e.revenue.value).None? ==> r == 0.0
    ensures e.revenue.Some? && ParseFloat(e.revenue.value).Some? ==> r == ParseFloat(e.revenue.value).value
  {
    var text := if e.revenue.None? || e.revenue == Some("") then "0" else e.revenue.value;
    ParseNumeral(0);
    match ParseFloat(text)
    case None => 0.0
    case Some(v) => v
  }

  /** `events.reduce((sum, e) => sum + share(e), 0)`, folding from the left. */
  function TotalRevenue(events: seq<AdEvent>): real
  {
    if events == [] then 0.0 else TotalRevenue(events[..|events| - 1]) + Revenue(events[|events| - 1])
  }

  /** The total of two batches is the sum of their totals. */
  lemma {:induction false} TotalRevenueAppend(a: seq<AdEvent>, b: seq<AdEvent>)
    ensures TotalRevenue(a + b) == TotalRevenue(a) + TotalRevenue(b)
  {
    if b != [] {
      assert (a + b)[..|a + b| - 1] == a + b[..|b| - 1];
      TotalRevenueAppend(a, b[..|b| - 1]);
    } else {
      assert a + b == a;
    }
  }

  /** Events with no revenue, or with revenue that is not a number, add nothing. */
  lemma {:induction false} TotalRevenueOfUnpaid(events: seq<AdEvent>)
    requires forall i :: 0 <= i < |events| ==>
      events[i].revenue.None? || ParseFloat(events[i].revenue.value).None? || events[i].revenue == Some("")
    ensures TotalRevenue(events) == 0.0
  {
    if events != [] {
      TotalRevenueOfUnpaid(events[..|events| - 1]);
    }
  }

  /** The `data` of a successful answer. */
  datatype Summary = Summary(impressions: nat, clicks: nat, totalRevenue: string)

  datatype Reply = Ok(data: Summary) | BadRequest(error: string) | InternalError

  function Status(r: Reply): nat
  {
    match r
    case Ok(_) => 200
    case BadRequest(_) => 400
    case InternalError => 500
  }

  /**
   * The handler, given the query and the outcome of fetching the events of `String(email)`
   * (the fetch is only made once the e-mail is present).
   */
  function Handle(q: Query, fetched: Result<seq<AdEvent>, Db.DbError>): (r: Reply)
    ensures !Truthy(QueryParam(q, "email")) ==> r == BadRequest(EmailFieldError)
    ensures Truthy(QueryParam(q, "email")) && fetched.Failure? ==> r == InternalError
    ensures r.Ok? ==>
      && fetched.Success?
      && r.data.impressions + r.data.clicks == |fetched.value|
      && r.data.impressions == |Filter(fetched.value, Db.IsImpression)|
      && r.data.clicks == |Filter(fetched.value, Db.IsClick)|
      && ParseFloat(r.data.totalRevenue).Some?
      && -0.00005 <= ParseFloat(r.data.totalRevenue).value - TotalRevenue(fetched.value) <= 0.00005
    ensures Status(r) == 200 <==> Truthy(QueryParam(q, "email")) && fetched.Success?
  {
    if !Truthy(QueryParam(q, "email")) then BadRequest(EmailFieldError)
    else if fetched.Failure? then InternalError
    else
      var events := fetched.value;
      FilterSplit(events, Db.IsImpression, Db.IsClick);
      Ok(Summary(|Filter(events, Db.IsImpression)|, |Filter(events, Db.IsClick)|, ToFixed4(TotalRevenue(events))))
  }
}
