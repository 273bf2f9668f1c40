/** String behaviour of the JavaScript runtime that the catalog and the chat
    route rely on: `toLowerCase`, `trim`, `includes` and the rendering of an
    integer by a template literal. */
module Text {

  predicate IsUpper(c: char) { 'A' <= c <= 'Z' }

  predicate IsDigit(c: char) { '0' <= c <= '9' }

  /** `toLowerCase` on one character, for the ASCII range. */
  function LowerChar(c: char): (d: char)
    ensures !IsUpper(d)
    ensures !IsUpper(c) ==> d == c
  {
    if IsUpper(c) then (c as int + 32) as char else c
  }

  /** `s.toLowerCase()`, character by character. */
  function Lower(s: string): (r: string)
    ensures |r| == |s|
    ensures forall i :: 0 <= i < |s| ==> r[i] == LowerChar(s[i])
  {
    if s == [] then [] else [LowerChar(s[0])] + Lower(s[1..])
  }

  function DigitChar(d: nat): char
    requires d < 10
  {
    ('0' as int + d) as char
  }

  function DigitValue(c: char): nat
    requires IsDigit(c)
  {
    c as int - '0' as int
  }

  /** How a template literal renders a non-negative integer: decimal digits with
      no leading zero. */
  function NatToDecimal(n: nat): (r: string)
    ensures r != []
    ensures forall i :: 0 <= i < |r| ==> IsDigit(r[i])
    ensures r[0] == '0' ==> n == 0
  {
    if n < 10 then [DigitChar(n)] else NatToDecimal(n / 10) + [DigitChar(n % 10)]
  }

  /** The number a string of decimal digits denotes. */
  function DecimalValue(s: string): nat
    requires forall i :: 0 <= i < |s| ==> IsDigit(s[i])
  {
    if s == [] then 0 else 10 * DecimalValue(s[..|s| - 1]) + DigitValue(s[|s| - 1])
  }

  /** Reading back a rendered number gives the number: the rendering is injective. */
  lemma {:induction false} DecimalRoundTrip(n: nat)
    ensures DecimalValue(NatToDecimal(n)) == n
  {
    if n >= 10 {
      var s := NatToDecimal(n);
      assert s[..|s| - 1] == NatToDecimal(n / 10);
      DecimalRoundTrip(n / 10);
    }
  }

  /** How a template literal renders any integer: a minus sign for negatives. */
  function IntToDecimal(i: int): (r: string)
    ensures r != []
    ensures i >= 0 ==> r == NatToDecimal(i)
    ensures i < 0 ==> r[0] == '-' && r[1..] == NatToDecimal(-i)
  {
    if i < 0 then "-" + NatToDecimal(-i) else NatToDecimal(i)
  }

  /** The characters `String.prototype.trim` removes: ECMAScript WhiteSpace
      (tab, vertical tab, form feed, space, no-break space, byte order mark and
      the Unicode space separators) and LineTerminator. */
  predicate IsJsWhitespace(c: char)
  {
    var n := c as int;
    n == 0x09 || n == 0x0B || n == 0x0C || n == 0x20 || n == 0xA0 || n == 0xFEFF
    || n == 0x1680 || (0x2000 <= n <= 0x200A) || n == 0x202F || n == 0x205F || n == 0x3000
    || n == 0x0A || n == 0x0D || n == 0x2028 || n == 0x2029
  }

  /** Number of whitespace characters at the front of `s`. */
  function LeadingSpace(s: string): (n: nat)
    ensures n <= |s|
    ensures forall i :: 0 <= i < n ==> IsJsWhitespace(s[i])
    ensures n < |s| ==> !IsJsWhitespace(s[n])
  {
    if s == [] || !IsJsWhitespace(s[0]) then 0 else 1 + LeadingSpace(s[1..])
  }

  /** Number of whitespace characters at the back of `s`. */
  function TrailingSpace(s: string): (n: nat)
    ensures n <= |s|
    ensures forall i :: |s| - n <= i < |s| ==> IsJsWhitespace(s[i])
    ensures n < |s| ==> !IsJsWhitespace(s[|s| - n - 1])
  {
    if s == [] || !IsJsWhitespace(s[|s| - 1]) then 0 else 1 + TrailingSpace(s[..|s| - 1])
  }

  /** `s.trim()`: `s` without its leading and trailing whitespace. */
  function Trim(s: string): (r: string)
    ensures |r| <= |s|
  {
    var lo := LeadingSpace(s);
    s[lo..lo + (|s| - lo - TrailingSpace(s[lo..]))]
  }

  /** What `trim` returns is a stretch of `s` right after the leading
      whitespace, and everything after that stretch is whitespace. */
  lemma TrimSpan(s: string)
    ensures var r, lo := Trim(s), LeadingSpace(s);
      lo + |r| <= |s| && r == s[lo..lo + |r|]
      && forall i :: lo + |r| <= i < |s| ==> IsJsWhitespace(s[i])
  {
    var lo := LeadingSpace(s);
    var t := s[lo..];
    var n := TrailingSpace(t);
    var hi := |t| - n;
    assert Trim(s) == s[lo..lo + hi];
    forall i | lo + hi <= i < |s| ensures IsJsWhitespace(s[i]) {
      var j := i - lo;
      assert |t| - n <= j < |t|;
      assert t[j] == s[i];
    }
  }

  /** What `trim` returns neither starts nor ends with whitespace. */
  lemma TrimEnds(s: string)
    ensures var r := Trim(s);
      r != [] ==> !IsJsWhitespace(r[0]) && !IsJsWhitespace(r[|r| - 1])
  {
    var lo := LeadingSpace(s);
    var t := s[lo..];
    var hi := |t| - TrailingSpace(t);
    var r := Trim(s);
    if r != [] {
      assert r[0] == t[0];
      assert r[|r| - 1] == t[hi - 1];
    }
  }

  /** `q` occurs in `text` starting at position `i`. */
  ghost predicate OccursAt(q: string, text: string, i: int)
  {
    0 <= i && i + |q| <= |text| && text[i..i + |q|] == q
  }

  /** `text.includes(q)`: the empty string is in every text, and nothing
      longer than the text is in it. */
  function Contains(text: string, q: string): (b: bool)
    ensures q == [] ==> b
    ensures b ==> |q| <= |text|
    decreases |text|
  {
    if |q| > |text| then false
    else if text[..|q|] == q then true
    else Contains(text[1..], q)
  }

  /** `Contains` holds exactly when `q` occurs somewhere in `text`. */
  lemma {:induction false} ContainsSpec(text: string, q: string)
    ensures Contains(text, q) <==> exists i :: OccursAt(q, text, i)
    decreases |text|
  {
    if |q| > |text| {
    } else if text[..|q|] == q {
      assert OccursAt(q, text, 0);
    } else {
      ContainsSpec(text[1..], q);
      if Contains(text[1..], q) {
        var i :| OccursAt(q, text[1..], i);
        assert text[1..][i..i + |q|] == text[i + 1..i + 1 + |q|];
        assert OccursAt(q, text, i + 1);
      } else {
        forall i | OccursAt(q, text, i)
          ensures false
        {
          assert i != 0;
          assert text[1..][i - 1..i - 1 + |q|] == text[i..i + |q|];
          assert OccursAt(q, text[1..], i - 1);
        }
      }
    }
  }
}
