/**
 * The audit snapshot stored in `rawData`: `JSON.stringify(req.query)` for a query whose values
 * are all strings, together with a reader for exactly that format, so that the snapshot is shown
 * to keep the whole query (every name, every value, their order).
 */
module RawData {
  import opened Wrappers
  import opened JsValues

  const Backspace: char := 8 as char
  const FormFeed: char := 12 as char

  function HexDigit(n: nat): (c: char)
    requires n < 16
  {
    if n < 10 then DigitChar(n) else (('a' as int) + n - 10) as char
  }

  function HexValue(c: char): Option<nat>
  {
    if '0' <= c <= '9' then Some((c as int) - ('0' as int))
    else if 'a' <= c <= 'f' then Some((c as int) - ('a' as int) + 10)
    else if 'A' <= c <= 'F' then Some((c as int) - ('A' as int) + 10)
    else None
  }

  lemma HexRoundTrip(n: nat)
    requires n < 16
    ensures HexValue(HexDigit(n)) == Some(n)
  {
  }

  /** How `JSON.stringify` writes one character inside a string literal. */
  function EscapeChar(c: char): (r: string)
    ensures |r| >= 1
  {
    if c == '"' then "\\\""
    else if c == '\\' then "\\\\"
    else if c == Backspace then "\\b"
    else if c == FormFeed then "\\f"
    else if c == '\n' then "\\n"
    else if c == '\r' then "\\r"
    else if c == '\t' then "\\t"
    else if c < ' ' then "\\u00" + [HexDigit((c as int) / 16), HexDigit((c as int) % 16)]
    else [c]
  }

  function Escape(s: string): string
  {
    if s == [] then "" else EscapeChar(s[0]) + Escape(s[1..])
  }

  /** A JSON string literal. */
  function Quote(s: string): string
  {
    "\"" + Escape(s) + "\""
  }

  function Members(q: Query): string
  {
    if q == [] then ""
    else
      var m := Quote(q[0].0) + ":" + Quote(q[0].1);
      if |q| == 1 then m else m + "," + Members(q[1..])
  }

  /** `JSON.stringify(req.query)`. */
  function Serialize(q: Query): string
  {
    "{" + Members(q) + "}"
  }

  /**
   * Reads the rest of a string literal whose opening quote is already consumed: the decoded
   * text and what follows the closing quote.
   */
  function ReadStringBody(s: string): (r: Option<(string, string)>)
    ensures r.Some? ==> |r.value.1| < |s|
    decreases |s|
  {
    if s == [] then None
    else if s[0] == '"' then Some(("", s[1..]))
    else if s[0] == '\\' then
      if |s| < 2 then None
      else
        var e := s[1];
        var simple :=
          if e == '"' then Some('"') else if e == '\\' then Some('\\') else if e == '/' then Some('/')
          else if e == 'b' then Some(Backspace) else if e == 'f' then Some(FormFeed) else if e == 'n' then Some('\n')
          else if e == 'r' then Some('\r') else if e == 't' then Some('\t') else None;
        if simple.Some? then Prepend(simple.value, ReadStringBody(s[2..]))
        else if e == 'u' && |s| >= 6 && s[2] == '0' && s[3] == '0'
                && HexValue(s[4]).Some? && HexValue(s[5]).Some? then
          Prepend((HexValue(s[4]).value * 16 + HexValue(s[5]).value) as char, ReadStringBody(s[6..]))
        else None
    else if s[0] < ' ' then None
    else Prepend(s[0], ReadStringBody(s[1..]))
  }

  function Prepend(c: char, r: Option<(string, string)>): Option<(string, string)>
  {
    if r.None? then None else Some(([c] + r.value.0, r.value.1))
  }

  /** Reading one escaped character gives it back in front of whatever the rest reads to. */
  lemma ReadEscapedChar(c: char, t: string)
    ensures ReadStringBody(EscapeChar(c) + t) == Prepend(c, ReadStringBody(t))
  {
    var s := EscapeChar(c) + t;
    if c == '"' || c == '\\' || c == Backspace || c == FormFeed || c == '\n' || c == '\r' || c == '\t' {
      assert s[2..] == t;
    } else if c < ' ' {
      var hi, lo := (c as int) / 16, (c as int) % 16;
      HexRoundTrip(hi);
      HexRoundTrip(lo);
      assert s[4] == HexDigit(hi) && s[5] == HexDigit(lo);
      assert s[6..] == t;
    } else {
      assert s[1..] == t;
    }
  }

  lemma {:induction false} ReadStringRoundTrip(x: string, rest: string)
    ensures ReadStringBody(Escape(x) + "\"" + rest) == Some((x, rest))
  {
    if x == [] {
      assert Escape(x) + "\"" + rest == "\"" + rest;
    } else {
      var tail := Escape(x[1..]) + "\"" + rest;
      assert Escape(x) + "\"" + rest == EscapeChar(x[0]) + tail;
      ReadEscapedChar(x[0], tail);
      ReadStringRoundTrip(x[1..], rest);
      assert [x[0]] + x[1..] == x;
    }
  }

  /** Reads one `"name":"value"` member and what follows it. */
  function ReadMember(s: string): (r: Option<((string, string), string)>)
    ensures r.Some? ==> |r.value.1| < |s|
  {
    if |s| == 0 || s[0] != '"' then None
    else
      var k := ReadStringBody(s[1..]);
      if k.None? || |k.value.1| < 2 || k.value.1[0] != ':' || k.value.1[1] != '"' then None
      else
        var v := ReadStringBody(k.value.1[2..]);
        if v.None? then None else Some(((k.value.0, v.value.0), v.value.1))
  }

  /** Reads members separated by `,` up to the closing `}`. */
  function ReadMembers(s: string): (r: Option<Query>)
    decreases |s|
  {
    var m := ReadMember(s);
    if m.None? then None
    else
      var rest := m.value.1;
      if rest == "}" then Some([m.value.0])
      else if |rest| > 0 && rest[0] == ',' then
        var more := ReadMembers(rest[1..]);
        if more.None? then None else Some([m.value.0] + more.value)
      else None
  }

  /** Reads a serialized query back. */
  function Parse(s: string): Option<Query>
  {
    if s == "{}" then Some([])
    else if |s| > 0 && s[0] == '{' then ReadMembers(s[1..])
    else None
  }

  lemma ReadMemberRoundTrip(k: string, v: string, tail: string)
    ensures ReadMember(Quote(k) + ":" + Quote(v) + tail) == Some(((k, v), tail))
  {
    var afterKey := ":\"" + Escape(v) + "\"" + tail;
    var s := Quote(k) + ":" + Quote(v) + tail;
    MemberShape(k, v, tail);
    ReadStringRoundTrip(k, afterKey);
    ReadStringRoundTrip(v, tail);
    ReadMemberAt(s, k, afterKey, v, tail);
  }

  lemma MemberShape(k: string, v: string, tail: string)
    ensures var afterKey := ":\"" + Escape(v) + "\"" + tail;
      var s := Quote(k) + ":" + Quote(v) + tail;
      && |s| > 0 && s[0] == '"' && s[1..] == Escape(k) + "\"" + afterKey
      && |afterKey| >= 2 && afterKey[0] == ':' && afterKey[1] == '"'
      && afterKey[2..] == Escape(v) + "\"" + tail
  {
    LayoutOfMember(Escape(k), Escape(v), tail);
  }

  lemma LayoutOfMember(a: string, b: string, tail: string)
    ensures var afterKey := ":\"" + b + "\"" + tail;
      var s := ("\"" + a + "\"") + ":" + ("\"" + b + "\"") + tail;
      && |s| > 0 && s[0] == '"' && s[1..] == a + "\"" + afterKey
      && |afterKey| >= 2 && afterKey[0] == ':' && afterKey[1] == '"'
      && afterKey[2..] == b + "\"" + tail
  {
    var afterKey := ":\"" + b + "\"" + tail;
    var s := ("\"" + a + "\"") + ":" + ("\"" + b + "\"") + tail;
    assert s == "\"" + (a + "\"" + afterKey);
  }

  lemma ReadMemberAt(s: string, k: string, afterKey: string, v: string, tail: string)
    requires |s| > 0 && s[0] == '"' && ReadStringBody(s[1..]) == Some((k, afterKey))
    requires |afterKey| >= 2 && afterKey[0] == ':' && afterKey[1] == '"'
    requires ReadStringBody(afterKey[2..]) == Some((v, tail))
    ensures ReadMember(s) == Some(((k, v), tail))
  {
  }

  lemma {:induction false} ReadMembersRoundTrip(q: Query)
    requires q != []
    ensures ReadMembers(Members(q) + "}") == Some(q)
  {
    if |q| == 1 {
      ReadLastMember(q);
    } else {
      ReadMembersRoundTrip(q[1..]);
      ReadNextMember(q);
    }
  }

  /** The last member is followed by the closing brace. */
  lemma ReadLastMember(q: Query)
    requires |q| == 1
    ensures ReadMembers(Members(q) + "}") == Some(q)
  {
    var key, value := q[0].0, q[0].1;
    var m := Quote(key) + ":" + Quote(value);
    assert Members(q) + "}" == m + "}";
    ReadMemberRoundTrip(key, value, "}");
    ReadMembersAt(m + "}", (key, value), "}");
    assert q == [(key, value)];
  }

  /** A member followed by a comma is read together with the members after it. */
  lemma ReadNextMember(q: Query)
    requires |q| > 1 && ReadMembers(Members(q[1..]) + "}") == Some(q[1..])
    ensures ReadMembers(Members(q) + "}") == Some(q)
  {
    var key, value := q[0].0, q[0].1;
    var m := Quote(key) + ":" + Quote(value);
    var more := Members(q[1..]);
    var tail := "," + more + "}";
    MembersCons(q);
    Associate(m, more);
    ReadMemberRoundTrip(key, value, tail);
    CommaTail(more);
    ReadMembersComma(m + tail, (key, value), tail);
    HeadAndRest(q);
  }

  lemma HeadAndRest(q: Query)
    requires q != []
    ensures [(q[0].0, q[0].1)] + q[1..] == q
  {
  }

  /** Unfolds `Members` once on a query of two or more parameters. */
  lemma MembersCons(q: Query)
    requires |q| > 1
    ensures Members(q) == Quote(q[0].0) + ":" + Quote(q[0].1) + "," + Members(q[1..])
  {
  }

  lemma CommaTail(more: string)
    ensures var t := "," + more + "}"; |t| >= 2 && t[0] == ',' && t[1..] == more + "}"
  {
    var t := "," + more + "}";
    assert |t| == |more| + 2;
  }

  /** A member followed by a comma continues with the members after the comma. */
  lemma ReadMembersComma(s: string, member: (string, string), tail: string)
    requires ReadMember(s) == Some((member, tail))
    requires |tail| >= 2 && tail[0] == ','
    ensures var more := ReadMembers(tail[1..]);
      ReadMembers(s) == if more.None? then None else Some([member] + more.value)
  {
    assert tail != "}" by { assert |"}"| == 1; }
    ReadMembersAt(s, member, tail);
  }

  lemma Associate(m: string, more: string)
    ensures (m + "," + more) + "}" == m + ("," + more + "}")
  {
  }

  lemma ReadMembersAt(s: string, member: (string, string), tail: string)
    requires ReadMember(s) == Some((member, tail))
    ensures ReadMembers(s) == (
      if tail == "}" then Some([member])
      else if |tail| > 0 && tail[0] == ',' then
        var more := ReadMembers(tail[1..]);
        if more.None? then None else Some([member] + more.value)
      else None)
  {
  }

  /** The snapshot keeps the whole query: reading it back gives the query. */
  lemma SerializeRoundTrip(q: Query)
    ensures Parse(Serialize(q)) == Some(q)
  {
    if q != [] {
      var s := Serialize(q);
      ReadMembersRoundTrip(q);
      assert s[1..] == Members(q) + "}";
      assert Quote(q[0].0)[0] == '"';
      assert s[1] == '"';
    }
  }

  /** Two queries with the same snapshot are the same query. */
  lemma SerializeInjective(q1: Query, q2: Query)
    requires Serialize(q1) == Serialize(q2)
    ensures q1 == q2
  {
    SerializeRoundTrip(q1);
    SerializeRoundTrip(q2);
  }
}
