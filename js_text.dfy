/** JavaScript strings as the Telegram bot sees them: sequences of UTF-16 code
    units. `length`, `substring`, `lastIndexOf` and `trimStart` all count and cut
    in code units, so a character outside the Basic Multilingual Plane (an emoji)
    counts twice and a cut may fall between the two halves of a surrogate pair. */
module JsText {
  import Numerals

  type CodeUnit = u: int | 0 <= u < 0x1_0000
  type JsString = seq<CodeUnit>

  const Newline: CodeUnit := 0x0A
  const Space: CodeUnit := 0x20
  const Dot: CodeUnit := 0x2E

  /** The UTF-16 encoding of one Unicode scalar value. */
  function EncodeChar(c: char): (units: JsString)
    ensures 1 <= |units| <= 2
    ensures |units| == 1 <==> c as int < 0x1_0000
    ensures |units| == 1 ==> units[0] == c as int
  {
    var cp := c as int;
    if cp < 0x1_0000 then [cp]
    else [0xD800 + (cp - 0x1_0000) / 0x400, 0xDC00 + (cp - 0x1_0000) % 0x400]
  }

  /** The JavaScript string a source literal denotes. */
  function Utf16(s: string): (r: JsString)
    ensures |s| <= |r| <= 2 * |s|
  {
    if s == [] then [] else EncodeChar(s[0]) + Utf16(s[1..])
  }

  lemma {:induction false} Utf16Append(a: string, b: string)
    ensures Utf16(a + b) == Utf16(a) + Utf16(b)
  {
    if a != [] {
      assert (a + b)[1..] == a[1..] + b;
      Utf16Append(a[1..], b);
    } else {
      assert a + b == b;
    }
  }

  /** The decimal digits of `n`, as `${n}` renders them. */
  function Decimal(n: nat): (r: JsString)
    ensures |r| >= 1
  {
    Utf16(Numerals.NatToString(n))
  }

  /** A code unit that is an ASCII decimal digit. */
  predicate IsDigitUnit(u: int) { 0x30 <= u <= 0x39 }

  /** Text inside the Basic Multilingual Plane takes one code unit per character. */
  lemma {:induction false} Utf16OfBmp(s: string)
    requires forall k :: 0 <= k < |s| ==> s[k] as int < 0x1_0000
    ensures |Utf16(s)| == |s|
    ensures forall k :: 0 <= k < |s| ==> Utf16(s)[k] == s[k] as int
  {
    if s != [] {
      Utf16OfBmp(s[1..]);
      assert Utf16(s) == [s[0] as int] + Utf16(s[1..]);
    }
  }

  /** `${n}` is the digits of `n`, one code unit each. */
  lemma DecimalDigits(n: nat)
    ensures |Decimal(n)| == |Numerals.NatToString(n)|
    ensures forall k :: 0 <= k < |Decimal(n)| ==>
              Decimal(n)[k] == Numerals.NatToString(n)[k] as int && IsDigitUnit(Decimal(n)[k])
  {
    Utf16OfBmp(Numerals.NatToString(n));
  }

  /** Distinct numbers render to distinct code units. */
  lemma DecimalInjective(a: nat, b: nat)
    requires Decimal(a) == Decimal(b)
    ensures a == b
  {
    DecimalDigits(a);
    DecimalDigits(b);
    var sa, sb := Numerals.NatToString(a), Numerals.NatToString(b);
    assert forall k :: 0 <= k < |sa| ==> sa[k] == sb[k] by {
      forall k | 0 <= k < |sa|
        ensures sa[k] == sb[k]
      {
        assert sa[k] as int == Decimal(a)[k] == Decimal(b)[k] == sb[k] as int;
      }
    }
    Numerals.NatToStringInjective(a, b);
  }

  /** ECMAScript WhiteSpace and LineTerminator code points, the set that
      `trim`, `trimStart` and `trimEnd` remove. */
  predicate IsJsWhitespace(u: int) {
    u == 0x09 || u == 0x0A || u == 0x0B || u == 0x0C || u == 0x0D || u == 0x20 ||
    u == 0xA0 || u == 0x1680 || (0x2000 <= u <= 0x200A) || u == 0x2028 || u == 0x2029 ||
    u == 0x202F || u == 0x205F || u == 0x3000 || u == 0xFEFF
  }

  predicate AllWhitespace(s: JsString) {
    forall i :: 0 <= i < |s| ==> IsJsWhitespace(s[i])
  }

  /** `s.trimStart()`: the suffix of `s` left after every leading whitespace
      code unit is removed. */
  function TrimStart(s: JsString): (r: JsString)
    ensures |r| <= |s| && r == s[|s| - |r|..]
    ensures AllWhitespace(s[..|s| - |r|])
    ensures r == [] || !IsJsWhitespace(r[0])
  {
    if s != [] && IsJsWhitespace(s[0]) then
      var r := TrimStart(s[1..]);
      assert s[..|s| - |r|] == [s[0]] + s[1..][..|s| - 1 - |r|];
      r
    else
      s
  }

  predicate MatchAt(s: JsString, pat: JsString, j: int) {
    0 <= j && j + |pat| <= |s| && s[j..j + |pat|] == pat
  }

  /** The last occurrence of `pat` starting at or before `j`, or -1. */
  function LastMatchAtOrBefore(s: JsString, pat: JsString, j: int): (k: int)
    ensures k == -1 || (0 <= k <= j && MatchAt(s, pat, k))
    decreases j + 1
  {
    if j < 0 then -1
    else if MatchAt(s, pat, j) then j
    else LastMatchAtOrBefore(s, pat, j - 1)
  }

  lemma {:induction false} NoMatchAfterLast(s: JsString, pat: JsString, j: int)
    ensures forall i :: LastMatchAtOrBefore(s, pat, j) < i <= j ==> !MatchAt(s, pat, i)
    decreases j + 1
  {
    if j >= 0 && !MatchAt(s, pat, j) {
      NoMatchAfterLast(s, pat, j - 1);
    }
  }

  /** `s.lastIndexOf(pat, position)`: the greatest index `k <= position` at which
      `pat` occurs in `s`, or -1 when there is none. */
  function LastIndexOf(s: JsString, pat: JsString, position: nat): (k: int)
    ensures k == -1 || (0 <= k <= position && MatchAt(s, pat, k))
  {
    var start := if position + |pat| <= |s| then position else |s| - |pat|;
    LastMatchAtOrBefore(s, pat, start)
  }

  /** No occurrence of `pat` lies after the one `lastIndexOf` reports (up to `position`). */
  lemma LastIndexOfIsLast(s: JsString, pat: JsString, position: nat)
    ensures forall j :: LastIndexOf(s, pat, position) < j <= position ==> !MatchAt(s, pat, j)
  {
    var start := if position + |pat| <= |s| then position else |s| - |pat|;
    NoMatchAfterLast(s, pat, start);
  }
}
