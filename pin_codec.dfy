/**
 * `JSON.stringify` and `JSON.parse` on an array of strings, the form in
 * which the quick-reply pins are kept in local storage. The encoder writes
 * exactly what `JSON.stringify` writes for a string array; the decoder
 * accepts that compact form (any escape JSON allows except surrogate
 * `\u` escapes, no whitespace between tokens).
 */
module PinCodec {
  import opened Wrappers
  import opened JsStrings

  // ---------------------------------------------------------------------
  // encoding

  /** A lower-case hexadecimal digit, as `JSON.stringify` writes them. */
  function HexDigit(d: nat): char
    requires d < 16
  {
    if d < 10 then DigitChar(d) else ('a' as int + d - 10) as char
  }

  /** One character inside a JSON string literal. */
  function EscapeChar(c: char): string {
    if c == '"' then "\\\""
    else if c == '\\' then "\\\\"
    else if c == '\U{0008}' then "\\b"
    else if c == '\U{000C}' then "\\f"
    else if c == '\n' then "\\n"
    else if c == '\r' then "\\r"
    else if c == '\t' then "\\t"
    else if (c as int) < 0x20 then "\\u00" + [HexDigit(c as int / 16), HexDigit(c as int % 16)]
    else [c]
  }

  /** The escaped text of a string, without the quotes. */
  function EscapeBody(s: string): string {
    if s == [] then "" else EscapeChar(s[0]) + EscapeBody(s[1..])
  }

  /** A JSON string literal. */
  function Quote(s: string): string {
    "\"" + EscapeBody(s) + "\""
  }

  function QuotedAll(xs: seq<string>): (r: seq<string>)
    ensures |r| == |xs| && forall i :: 0 <= i < |xs| ==> r[i] == Quote(xs[i])
  {
    seq(|xs|, i requires 0 <= i < |xs| => Quote(xs[i]))
  }

  /** `JSON.stringify(xs)` for an array of strings. */
  function Stringify(xs: seq<string>): (r: string)
    ensures r != "" && r[0] == '['
  {
    "[" + Join(QuotedAll(xs), ",") + "]"
  }

  // ---------------------------------------------------------------------
  // decoding

  /** The value of a hexadecimal digit of either case. */
  function HexValue(c: char): Option<nat> {
    if '0' as int <= c as int <= '9' as int then Some(c as int - '0' as int)
    else if 'a' as int <= c as int <= 'f' as int then Some(c as int - 'a' as int + 10)
    else if 'A' as int <= c as int <= 'F' as int then Some(c as int - 'A' as int + 10)
    else None
  }

  /** The code unit four hexadecimal digits denote. */
  function HexQuad(a: char, b: char, c: char, d: char): (r: Option<nat>)
    ensures r.Some? ==> r.value < 0x10000
  {
    match (HexValue(a), HexValue(b), HexValue(c), HexValue(d))
    case (Some(va), Some(vb), Some(vc), Some(vd)) =>
      if va < 16 && vb < 16 && vc < 16 && vd < 16 then Some(((va * 16 + vb) * 16 + vc) * 16 + vd) else None
    case _ => None
  }

  /**
   * The escape sequence at the start of `s` (which starts with a
   * backslash): the character it stands for and the number of characters
   * it takes.
   */
  function ParseEscape(s: string): (r: Option<(char, nat)>)
    requires s != [] && s[0] == '\\'
    ensures r.Some? ==> 2 <= r.value.1 <= |s|
  {
    if |s| < 2 then None
    else if s[1] == '"' then Some(('"', 2))
    else if s[1] == '\\' then Some(('\\', 2))
    else if s[1] == '/' then Some(('/', 2))
    else if s[1] == 'b' then Some(('\U{0008}', 2))
    else if s[1] == 'f' then Some(('\U{000C}', 2))
    else if s[1] == 'n' then Some(('\n', 2))
    else if s[1] == 'r' then Some(('\r', 2))
    else if s[1] == 't' then Some(('\t', 2))
    else if s[1] == 'u' && |s| >= 6 then
      match HexQuad(s[2], s[3], s[4], s[5])
      case Some(v) => if 0xD800 <= v <= 0xDFFF then None else Some((v as char, 6))
      case None => None
    else None
  }

  /**
   * The body of a string literal up to its closing quote: the decoded text
   * and what follows the quote.
   */
  function ParseChars(s: string): (r: Option<(string, string)>)
    ensures r.Some? ==> |r.value.1| < |s|
    decreases |s|
  {
    if s == [] then None
    else if s[0] == '"' then Some(([], s[1..]))
    else if s[0] == '\\' then
      match ParseEscape(s)
      case None => None
      case Some((c, n)) => Prepend(c, ParseChars(s[n..]))
    else if (s[0] as int) < 0x20 then None
    else Prepend(s[0], ParseChars(s[1..]))
  }

  function Prepend(c: char, r: Option<(string, string)>): Option<(string, string)> {
    match r
    case None => None
    case Some((body, rest)) => Some(([c] + body, rest))
  }

  /** A string literal at the start of `s`, and what follows it. */
  function ParseString(s: string): (r: Option<(string, string)>)
    ensures r.Some? ==> |r.value.1| < |s|
  {
    if s != [] && s[0] == '"' then ParseChars(s[1..]) else None
  }

  /** The elements of a non-empty array after its `[`, up to and including the `]`. */
  function ParseElements(s: string): Option<(seq<string>, string)>
    decreases |s|
  {
    match ParseString(s)
    case None => None
    case Some((x, r)) =>
      if r != [] && r[0] == ',' then
        match ParseElements(r[1..])
        case None => None
        case Some((ys, rest)) => Some(([x] + ys, rest))
      else if r != [] && r[0] == ']' then Some(([x], r[1..]))
      else None
  }

  /** `JSON.parse(s)` for an array of strings; `None` where it would throw. */
  function Parse(s: string): Option<seq<string>> {
    if s == [] || s[0] != '[' then None
    else if |s| >= 2 && s[1] == ']' then (if |s| == 2 then Some([]) else None)
    else
      match ParseElements(s[1..])
      case Some((xs, rest)) => if rest == [] then Some(xs) else None
      case None => None
  }

  // ---------------------------------------------------------------------
  // the round trip

  lemma HexDigitValue(d: nat)
    requires d < 16
    ensures HexValue(HexDigit(d)) == Some(d)
  {
  }

  /** A two-character escape decodes to its character. */
  lemma ShortEscapeParses(c: char, t: string)
    requires c == '"' || c == '\\' || c == '\U{0008}' || c == '\U{000C}' || c == '\n' || c == '\r' || c == '\t'
    ensures ParseChars(EscapeChar(c) + t) == Prepend(c, ParseChars(t))
  {
    var s := EscapeChar(c) + t;
    assert |EscapeChar(c)| == 2 && s[0] == '\\';
    assert s[2..] == t;
  }

  /** A `\u00XY` escape of a control character decodes to that character. */
  lemma ControlEscapeParses(c: char, t: string)
    requires (c as int) < 0x20
    requires !(c == '"' || c == '\\' || c == '\U{0008}' || c == '\U{000C}' || c == '\n' || c == '\r' || c == '\t')
    ensures ParseChars(EscapeChar(c) + t) == Prepend(c, ParseChars(t))
  {
    var hi, lo := c as int / 16, c as int % 16;
    var e := "\\u00" + [HexDigit(hi), HexDigit(lo)];
    assert EscapeChar(c) == e;
    var s := e + t;
    HexDigitValue(hi);
    HexDigitValue(lo);
    assert s[0] == '\\' && s[1] == 'u' && s[2] == '0' && s[3] == '0' && s[4] == HexDigit(hi) && s[5] == HexDigit(lo);
    assert HexQuad(s[2], s[3], s[4], s[5]) == Some(c as int);
    assert ParseEscape(s) == Some((c, 6));
    assert s[6..] == t;
  }

  /** Decoding an escaped character gives the character back. */
  lemma EscapeCharParses(c: char, t: string)
    ensures ParseChars(EscapeChar(c) + t) == Prepend(c, ParseChars(t))
  {
    if c == '"' || c == '\\' || c == '\U{0008}' || c == '\U{000C}' || c == '\n' || c == '\r' || c == '\t' {
      ShortEscapeParses(c, t);
    } else if (c as int) < 0x20 {
      ControlEscapeParses(c, t);
    } else {
      var s := EscapeChar(c) + t;
      assert s[1..] == t;
    }
  }

  /** Decoding an escaped body followed by a quote gives the string and what follows the quote. */
  lemma {:induction false} BodyParses(s: string, t: string)
    ensures ParseChars(EscapeBody(s) + "\"" + t) == Some((s, t))
    decreases |s|
  {
    if s == [] {
      assert EscapeBody(s) + "\"" + t == "\"" + t;
      assert ("\"" + t)[1..] == t;
    } else {
      var tail := EscapeBody(s[1..]) + "\"" + t;
      assert EscapeBody(s) + "\"" + t == EscapeChar(s[0]) + tail;
      EscapeCharParses(s[0], tail);
      BodyParses(s[1..], t);
      assert [s[0]] + s[1..] == s;
    }
  }

  lemma QuoteParses(x: string, t: string)
    ensures ParseString(Quote(x) + t) == Some((x, t))
  {
    var s := Quote(x) + t;
    assert s[1..] == EscapeBody(x) + "\"" + t;
    BodyParses(x, t);
  }

  /** The last element: a string literal followed by the closing bracket. */
  lemma LastElementParses(x: string, t: string)
    ensures ParseElements(Quote(x) + "]" + t) == Some(([x], t))
  {
    assert Quote(x) + "]" + t == Quote(x) + ("]" + t);
    QuoteParses(x, "]" + t);
    assert ("]" + t)[1..] == t;
  }

  /** An element followed by a comma and the remaining elements. */
  lemma NextElementParses(x: string, rest: string, ys: seq<string>, t: string)
    requires ParseElements(rest) == Some((ys, t))
    ensures ParseElements(Quote(x) + "," + rest) == Some(([x] + ys, t))
  {
    var r := "," + rest;
    assert Quote(x) + "," + rest == Quote(x) + r;
    QuoteParses(x, r);
    assert r != [] && r[0] == ',' && r[1..] == rest;
  }

  lemma {:induction false} ElementsParse(xs: seq<string>, t: string)
    requires xs != []
    ensures ParseElements(Join(QuotedAll(xs), ",") + "]" + t) == Some((xs, t))
    decreases |xs|
  {
    var q := QuotedAll(xs);
    if |xs| == 1 {
      assert Join(q, ",") == Quote(xs[0]);
      LastElementParses(xs[0], t);
      assert [xs[0]] == xs;
    } else {
      var rest := Join(QuotedAll(xs[1..]), ",") + "]" + t;
      assert q[1..] == QuotedAll(xs[1..]);
      assert Join(q, ",") + "]" + t == Quote(xs[0]) + "," + rest;
      ElementsParse(xs[1..], t);
      NextElementParses(xs[0], rest, xs[1..], t);
      assert [xs[0]] + xs[1..] == xs;
    }
  }

  /** `JSON.parse(JSON.stringify(xs))` gives `xs` back. */
  lemma ParseStringify(xs: seq<string>)
    ensures Parse(Stringify(xs)) == Some(xs)
  {
    var s := Stringify(xs);
    if xs == [] {
      assert s == "[]";
    } else {
      var q := QuotedAll(xs);
      ElementsParse(xs, "");
      assert s[1..] == Join(q, ",") + "]" + "";
      assert Join(q, ",")[0] == '"' by {
        if |q| == 1 {
          assert Join(q, ",") == Quote(xs[0]);
        } else {
          assert Join(q, ",") == Quote(xs[0]) + "," + Join(q[1..], ",");
        }
      }
      assert s[1] == '"';
    }
  }

  /** Different pin lists are stored as different texts. */
  lemma StringifyInjective(xs: seq<string>, ys: seq<string>)
    requires Stringify(xs) == Stringify(ys)
    ensures xs == ys
  {
    ParseStringify(xs);
    ParseStringify(ys);
  }
}
