/**
 * The JavaScript string and array primitives the components rely on:
 * truthiness of an optional string, `String.prototype.trim`, `toLowerCase`,
 * `includes`, `Array.prototype.join`, `split` on one character, the
 * UTF-16 `length` of a string and the decimal rendering of a whole number
 * inside a template literal.
 */
module JsStrings {
  import opened Wrappers

  /** An optional string is truthy when it is present and not "". */
  predicate Truthy(o: Option<string>) {
    o.Some? && o.value != ""
  }

  // ---------------------------------------------------------------------
  // trim

  /**
   * The code points `trim` removes: ECMAScript WhiteSpace (tab, vertical
   * tab, form feed, space, no-break space, byte order mark and the Unicode
   * space separators) and LineTerminator (LF, CR, LS, PS).
   */
  predicate IsWhitespace(c: char) {
    var n := c as int;
    || (0x09 <= n <= 0x0D) || n == 0x20 || n == 0xA0 || n == 0x1680
    || (0x2000 <= n <= 0x200A) || n == 0x2028 || n == 0x2029
    || n == 0x202F || n == 0x205F || n == 0x3000 || n == 0xFEFF
  }

  /** The index of the first non-whitespace character at or after `i`, or `|s|`. */
  function LeadingEnd(s: string, i: nat): (j: nat)
    requires i <= |s|
    ensures i <= j <= |s|
    decreases |s| - i
  {
    if i < |s| && IsWhitespace(s[i]) then LeadingEnd(s, i + 1) else i
  }

  /** The index just past the last non-whitespace character before `j`, or 0. */
  function TrailingStart(s: string, j: nat): (i: nat)
    requires j <= |s|
    ensures i <= j
  {
    if j > 0 && IsWhitespace(s[j - 1]) then TrailingStart(s, j - 1) else j
  }

  /** `s` without its leading whitespace: a suffix of `s`. */
  function TrimStart(s: string): (r: string)
    ensures |r| <= |s| && r == s[|s| - |r|..]
  {
    s[LeadingEnd(s, 0)..]
  }

  /** `s` without its trailing whitespace: a prefix of `s`. */
  function TrimEnd(s: string): (r: string)
    ensures |r| <= |s| && r == s[..|r|]
  {
    s[..TrailingStart(s, |s|)]
  }

  lemma {:induction false} LeadingEndSpec(s: string, i: nat)
    requires i <= |s|
    ensures forall k :: i <= k < LeadingEnd(s, i) ==> IsWhitespace(s[k])
    ensures LeadingEnd(s, i) < |s| ==> !IsWhitespace(s[LeadingEnd(s, i)])
    decreases |s| - i
  {
    if i < |s| && IsWhitespace(s[i]) {
      LeadingEndSpec(s, i + 1);
    }
  }

  lemma {:induction false} TrailingStartSpec(s: string, j: nat)
    requires j <= |s|
    ensures forall k :: TrailingStart(s, j) <= k < j ==> IsWhitespace(s[k])
    ensures TrailingStart(s, j) > 0 ==> !IsWhitespace(s[TrailingStart(s, j) - 1])
  {
    if j > 0 && IsWhitespace(s[j - 1]) {
      TrailingStartSpec(s, j - 1);
    }
  }

  /** What `TrimStart` removes is whitespace, and what it keeps starts with something else. */
  lemma LeadingWhitespace(s: string)
    ensures forall k :: 0 <= k < |s| - |TrimStart(s)| ==> IsWhitespace(s[k])
    ensures TrimStart(s) != [] ==> !IsWhitespace(TrimStart(s)[0])
  {
    LeadingEndSpec(s, 0);
  }

  /** What `TrimEnd` removes is whitespace, and what it keeps ends with something else. */
  lemma TrailingWhitespace(s: string)
    ensures forall k :: |TrimEnd(s)| <= k < |s| ==> IsWhitespace(s[k])
    ensures TrimEnd(s) != [] ==> !IsWhitespace(TrimEnd(s)[|TrimEnd(s)| - 1])
  {
    TrailingStartSpec(s, |s|);
  }

  /** `s.trim()`: `s` without its leading and trailing whitespace. */
  function Trim(s: string): (r: string)
    ensures |r| <= |s|
  {
    TrimEnd(TrimStart(s))
  }

  /** The trimmed string neither starts nor ends with whitespace. */
  lemma TrimEnds(s: string)
    ensures Trim(s) != [] ==> !IsWhitespace(Trim(s)[0]) && !IsWhitespace(Trim(s)[|Trim(s)| - 1])
  {
    var t := TrimStart(s);
    LeadingWhitespace(s);
    TrailingWhitespace(t);
    if Trim(s) != [] {
      assert Trim(s)[0] == t[0];
    }
  }

  /** The trimmed string is the slice of `s` that starts after the leading whitespace. */
  lemma TrimIsSlice(s: string)
    ensures var i, r := |s| - |TrimStart(s)|, Trim(s);
      i + |r| <= |s| && r == s[i..i + |r|]
  {
    var t := TrimStart(s);
    var i := |s| - |t|;
    assert t == s[i..];
    assert Trim(s) == t[..|Trim(s)|];
  }

  /** Only whitespace lies before and after the trimmed slice. */
  lemma TrimRemovesWhitespace(s: string)
    ensures var i, r := |s| - |TrimStart(s)|, Trim(s);
      && (forall k :: 0 <= k < i ==> IsWhitespace(s[k]))
      && (forall k :: i + |r| <= k < |s| ==> IsWhitespace(s[k]))
  {
    var t := TrimStart(s);
    var i := |s| - |t|;
    LeadingWhitespace(s);
    TrailingWhitespace(t);
    forall k | i + |Trim(s)| <= k < |s| ensures IsWhitespace(s[k]) {
      assert s[k] == t[k - i];
    }
  }

  /** Only a string made of whitespace trims to "". */
  lemma TrimEmptyIff(s: string)
    ensures Trim(s) == [] <==> forall k :: 0 <= k < |s| ==> IsWhitespace(s[k])
  {
    var t := TrimStart(s);
    LeadingWhitespace(s);
    if Trim(s) == [] {
      TrailingWhitespace(t);
      assert t == [];
    } else {
      var r := Trim(s);
      var i := |s| - |t|;
      TrimEnds(s);
      assert s[i] == r[0];
    }
  }

  /** Trimming twice is trimming once. */
  lemma TrimIdempotent(s: string)
    ensures Trim(Trim(s)) == Trim(s)
  {
    var r := Trim(s);
    TrimEnds(s);
    if r != [] {
      assert TrimStart(r) == r;
      assert TrimEnd(r) == r;
    }
  }

  // ---------------------------------------------------------------------
  // toLowerCase, includes

  /** `toLowerCase` on one character, for the ASCII letters. */
  function LowerChar(c: char): char {
    if 'A' <= c <= 'Z' then (c as int + 32) as char else c
  }

  function ToLower(s: string): (r: string)
    ensures |r| == |s|
  {
    seq(|s|, i requires 0 <= i < |s| => LowerChar(s[i]))
  }

  /** `haystack.includes(needle)`: `needle` occurs as a contiguous slice. */
  predicate Includes(haystack: string, needle: string) {
    exists i :: 0 <= i <= |haystack| - |needle| && OccursAt(haystack, needle, i)
  }

  predicate OccursAt(haystack: string, needle: string, i: int)
    requires 0 <= i <= |haystack| - |needle|
  {
    haystack[i..i + |needle|] == needle
  }

  /** Every string includes "". */
  lemma IncludesEmpty(haystack: string)
    ensures Includes(haystack, "")
  {
    assert OccursAt(haystack, "", 0);
  }

  // ---------------------------------------------------------------------
  // join and split

  /** `xs.join(sep)`. */
  function Join(xs: seq<string>, sep: string): string {
    if xs == [] then ""
    else if |xs| == 1 then xs[0]
    else xs[0] + sep + Join(xs[1..], sep)
  }

  /** Joining two non-empty lists puts one separator between their joins. */
  lemma {:induction false} JoinAppend(xs: seq<string>, ys: seq<string>, sep: string)
    requires xs != [] && ys != []
    ensures Join(xs + ys, sep) == Join(xs, sep) + sep + Join(ys, sep)
  {
    if |xs| == 1 {
      assert (xs + ys)[1..] == ys;
    } else {
      assert (xs + ys)[1..] == xs[1..] + ys;
      JoinAppend(xs[1..], ys, sep);
    }
  }

  /** The part of `s` before the first `c`, or all of `s`. */
  function BeforeFirst(s: string, c: char): (r: string)
    ensures c !in r && r <= s
    ensures r == s || (|r| < |s| && s[|r|] == c)
  {
    if s == [] then []
    else if s[0] == c then []
    else [s[0]] + BeforeFirst(s[1..], c)
  }

  /** The part of `s` after the first `c`, or "" when `s` has no `c`. */
  function AfterFirst(s: string, c: char): string {
    var b := BeforeFirst(s, c);
    if |b| < |s| then s[|b| + 1..] else ""
  }

  /** `s.split(c)` for a one-character separator. */
  function Split(s: string, c: char): (r: seq<string>)
    ensures r != []
    decreases |s|
  {
    var b := BeforeFirst(s, c);
    if |b| < |s| then [b] + Split(s[|b| + 1..], c) else [s]
  }

  /** Splitting at the first `c` of `head + [c] + tail` recovers both parts. */
  lemma {:induction false} FirstAfterHead(head: string, c: char, tail: string)
    requires c !in head
    ensures BeforeFirst(head + [c] + tail, c) == head
    ensures AfterFirst(head + [c] + tail, c) == tail
  {
    if head != [] {
      assert (head + [c] + tail)[1..] == head[1..] + [c] + tail;
      FirstAfterHead(head[1..], c, tail);
    }
  }

  /** A string without `c` splits into itself alone. */
  lemma {:induction false} NoSeparator(s: string, c: char)
    requires c !in s
    ensures BeforeFirst(s, c) == s && Split(s, c) == [s]
  {
    if s != [] {
      NoSeparator(s[1..], c);
    }
  }

  /** `split` undoes `join` when no piece contains the separator. */
  lemma {:induction false} SplitJoin(xs: seq<string>, c: char)
    requires xs != []
    requires forall i :: 0 <= i < |xs| ==> c !in xs[i]
    ensures Split(Join(xs, [c]), c) == xs
  {
    if |xs| == 1 {
      NoSeparator(xs[0], c);
    } else {
      var rest := Join(xs[1..], [c]);
      FirstAfterHead(xs[0], c, rest);
      assert xs[0] + [c] + rest == Join(xs, [c]);
      SplitJoin(xs[1..], c);
    }
  }

  // ---------------------------------------------------------------------
  // length in UTF-16 code units

  /** `s.length`: a code point above U+FFFF takes two UTF-16 code units. */
  function JsLength(s: string): nat {
    if s == [] then 0
    else (if s[0] as int > 0xFFFF then 2 else 1) + JsLength(s[1..])
  }

  /** The UTF-16 length lies between the number of code points and twice it. */
  lemma {:induction false} JsLengthBounds(s: string)
    ensures |s| <= JsLength(s) <= 2 * |s|
    ensures JsLength(s) == 0 <==> s == []
  {
    if s != [] {
      JsLengthBounds(s[1..]);
    }
  }

  /** Length adds up over concatenation. */
  lemma {:induction false} JsLengthAppend(a: string, b: string)
    ensures JsLength(a + b) == JsLength(a) + JsLength(b)
  {
    if a == [] {
      assert a + b == b;
    } else {
      assert (a + b)[1..] == a[1..] + b;
      JsLengthAppend(a[1..], b);
    }
  }

  // ---------------------------------------------------------------------
  // decimal rendering of a natural number

  function DigitChar(d: nat): char
    requires d < 10
  {
    ('0' as int + d) as char
  }

  predicate IsDigit(c: char) {
    '0' as int <= c as int <= '9' as int
  }

  /** `${n}` for a whole number `n >= 0`: "0", or digits without a leading zero. */
  function NatToDecimal(n: nat): (r: string)
    ensures r != [] && forall k :: 0 <= k < |r| ==> IsDigit(r[k])
    ensures |r| > 1 ==> r[0] != '0'
  {
    if n < 10 then [DigitChar(n)] else NatToDecimal(n / 10) + [DigitChar(n % 10)]
  }

  /** The number a string of digits denotes. */
  function DecimalValue(s: string): nat
    requires forall k :: 0 <= k < |s| ==> IsDigit(s[k])
  {
    if s == [] then 0
    else
      assert IsDigit(s[|s| - 1]);
      10 * DecimalValue(s[..|s| - 1]) + (s[|s| - 1] as int - '0' as int)
  }

  /** Reading the rendered digits back gives the number. */
  lemma {:induction false} DecimalRoundTrip(n: nat)
    ensures DecimalValue(NatToDecimal(n)) == n
  {
    if n >= 10 {
      var r := NatToDecimal(n);
      assert r[..|r| - 1] == NatToDecimal(n / 10);
      DecimalRoundTrip(n / 10);
    }
  }
}
