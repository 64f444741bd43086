/** Character classes, whitespace stripping, case mapping and decimal numerals, as the
    Python backend (`str.strip`, `str.upper`, `str.lower`, `int`, `str`, the `re` classes
    `\s`, `\w`, `\d`) and the JavaScript console (`String.prototype.trim`) use them.
    Letters and digits are modelled exactly on the Latin-1 range (U+0000 to U+00FF);
    whitespace is modelled exactly on all of Unicode. */
module Text {

  /** Python's `str.isspace()`: the characters `str.strip()` removes and `\s` matches in a
      str pattern. */
  predicate IsPySpace(c: char)
  {
    || ('\t' <= c <= '\r')
    || ('\U{1C}' <= c <= '\U{1F}')
    || c == ' '
    || c == '\U{85}'
    || c == '\U{A0}'
    || c == '\U{1680}'
    || ('\U{2000}' <= c <= '\U{200A}')
    || c == '\U{2028}'
    || c == '\U{2029}'
    || c == '\U{202F}'
    || c == '\U{205F}'
    || c == '\U{3000}'
  }

  /** The characters JavaScript's `String.prototype.trim` removes: its WhiteSpace and
      LineTerminator productions. Unlike Python it includes U+FEFF and excludes
      U+001C to U+001F and U+0085. */
  predicate IsJsSpace(c: char)
  {
    || ('\t' <= c <= '\r')
    || c == ' '
    || c == '\U{A0}'
    || c == '\U{1680}'
    || ('\U{2000}' <= c <= '\U{200A}')
    || c == '\U{2028}'
    || c == '\U{2029}'
    || c == '\U{202F}'
    || c == '\U{205F}'
    || c == '\U{3000}'
    || c == '\U{FEFF}'
  }

  /** `\d` in a str pattern, restricted to Latin-1 (where only the ASCII digits are decimal). */
  predicate IsDigit(c: char)
  {
    '0' <= c <= '9'
  }

  /** `\w` in a str pattern on Latin-1: `_` and every character that is alphabetic or numeric
      (so also the ordinal indicators, the superscript digits and the vulgar fractions). */
  predicate IsWordChar(c: char)
  {
    || ('0' <= c <= '9')
    || ('A' <= c <= 'Z')
    || c == '_'
    || ('a' <= c <= 'z')
    || c == '\U{AA}' || c == '\U{B2}' || c == '\U{B3}' || c == '\U{B5}'
    || c == '\U{B9}' || c == '\U{BA}'
    || ('\U{BC}' <= c <= '\U{BE}')
    || ('\U{C0}' <= c <= '\U{D6}')
    || ('\U{D8}' <= c <= '\U{F6}')
    || ('\U{F8}' <= c <= '\U{FF}')
  }

  /** `.` without the DOTALL flag: anything but a line feed. */
  predicate IsNotNewline(c: char) {
    c != '\n'
  }

  /** The classes the patterns put next to each other never share a character: a digit is
      a word character, and neither is whitespace. Word characters are all in Latin-1. */
  lemma ClassRelations(c: char)
    ensures !(IsWordChar(c) && IsPySpace(c))
    ensures IsDigit(c) ==> IsWordChar(c)
    ensures IsWordChar(c) ==> c <= '\U{FF}' && IsNotNewline(c)
  {
  }

  /** What the console's `trim` removes is what the backend's `strip` removes, except that
      `trim` also removes U+FEFF and keeps U+001C to U+001F and U+0085. */
  lemma TrimVersusStrip(c: char)
    ensures IsJsSpace(c) <==> c == '\U{FEFF}' || (IsPySpace(c) && !('\U{1C}' <= c <= '\U{1F}') && c != '\U{85}')
  {
  }


  /** The end of the longest run of characters satisfying `cls` that starts at `i`. */
  function SpanEnd(s: string, i: nat, cls: char -> bool): (j: nat)
    requires i <= |s|
    ensures i <= j <= |s|
    ensures forall k :: i <= k < j ==> cls(s[k])
    ensures j == |s| || !cls(s[j])
    decreases |s| - i
  {
    if i < |s| && cls(s[i]) then SpanEnd(s, i + 1, cls) else i
  }

  /** The start of the longest run of characters satisfying `cls` that ends at `j`
      and does not reach below `lo`. */
  function SpanStart(s: string, lo: nat, j: nat, cls: char -> bool): (i: nat)
    requires lo <= j <= |s|
    ensures lo <= i <= j
    ensures forall k :: i <= k < j ==> cls(s[k])
    ensures i == lo || !cls(s[i - 1])
    decreases j
  {
    if lo < j && cls(s[j - 1]) then SpanStart(s, lo, j - 1, cls) else j
  }

  /** A run is maximal in only one way: `SpanEnd` finds exactly the end of it. */
  lemma {:induction false} SpanEndIsRunEnd(s: string, i: nat, j: nat, cls: char -> bool)
    requires i <= j <= |s|
    requires forall k :: i <= k < j ==> cls(s[k])
    requires j == |s| || !cls(s[j])
    ensures SpanEnd(s, i, cls) == j
    decreases j - i
  {
    if i < j {
      SpanEndIsRunEnd(s, i + 1, j, cls);
    }
  }

  lemma {:induction false} SpanStartIsRunStart(s: string, lo: nat, i: nat, j: nat, cls: char -> bool)
    requires lo <= i <= j <= |s|
    requires forall k :: i <= k < j ==> cls(s[k])
    requires i == lo || !cls(s[i - 1])
    ensures SpanStart(s, lo, j, cls) == i
    decreases j - i
  {
    if i < j {
      SpanStartIsRunStart(s, lo, i, j - 1, cls);
    }
  }

  /** Removes the leading and trailing characters satisfying `ws`: Python's `str.strip()`
      with `IsPySpace`, JavaScript's `String.prototype.trim` with `IsJsSpace`. */
  function Strip(s: string, ws: char -> bool): (r: string)
    ensures |r| <= |s|
    ensures r == [] || (!ws(r[0]) && !ws(r[|r| - 1]))
    ensures r == [] <==> forall k :: 0 <= k < |s| ==> ws(s[k])
  {
    var i := SpanEnd(s, 0, ws);
    s[i..SpanStart(s, i, |s|, ws)]
  }

  /** Stripping removes exactly the padding: whatever whitespace surrounds a text without
      whitespace at its ends, stripping gives back that text. */
  lemma StripOfPadded(p: string, t: string, q: string, ws: char -> bool)
    requires forall k :: 0 <= k < |p| ==> ws(p[k])
    requires forall k :: 0 <= k < |q| ==> ws(q[k])
    requires t == [] || (!ws(t[0]) && !ws(t[|t| - 1]))
    ensures Strip(p + t + q, ws) == t
  {
    var s := p + t + q;
    if t == [] {
      assert forall k :: 0 <= k < |s| ==> ws(s[k]) by {
        forall k | 0 <= k < |s| ensures ws(s[k]) {
          if k < |p| { assert s[k] == p[k]; } else { assert s[k] == q[k - |p|]; }
        }
      }
    } else {
      assert forall k :: 0 <= k < |p| ==> ws(s[k]) by {
        forall k | 0 <= k < |p| ensures ws(s[k]) { assert s[k] == p[k]; }
      }
      assert s[|p|] == t[0];
      SpanEndIsRunEnd(s, 0, |p|, ws);
      var j := |p| + |t|;
      assert forall k :: j <= k < |s| ==> ws(s[k]) by {
        forall k | j <= k < |s| ensures ws(s[k]) { assert s[k] == q[k - j]; }
      }
      assert s[j - 1] == t[|t| - 1];
      SpanStartIsRunStart(s, |p|, j, |s|, ws);
      assert s[|p|..j] == t;
    }
  }

  /** Whitespace in front of a text does not change what stripping it gives. */
  lemma StripOfLeading(p: string, t: string, ws: char -> bool)
    requires forall k :: 0 <= k < |p| ==> ws(p[k])
    ensures Strip(p + t, ws) == Strip(t, ws)
  {
    var u := Strip(t, ws);
    var s := p + t;
    if u == [] {
      assert forall k :: 0 <= k < |s| ==> ws(s[k]) by {
        forall k | 0 <= k < |s| ensures ws(s[k]) {
          if k < |p| { assert s[k] == p[k]; } else { assert s[k] == t[k - |p|]; }
        }
      }
    } else {
      var i := SpanEnd(t, 0, ws);
      var j := SpanStart(t, i, |t|, ws);
      assert t == t[..i] + u + t[j..];
      assert s == (p + t[..i]) + u + t[j..];
      StripOfPadded(p + t[..i], u, t[j..], ws);
    }
  }

  lemma StripIdempotent(s: string, ws: char -> bool)
    ensures Strip(Strip(s, ws), ws) == Strip(s, ws)
  {
    var r := Strip(s, ws);
    StripOfPadded([], r, [], ws);
    assert [] + r + [] == r;
  }

  /** Python's `str.lower()` on one character, for the characters modelled: ASCII and Latin-1
      capitals (not U+00D7, the multiplication sign) move down by 32. */
  function LowerChar(c: char): char {
    if ('A' <= c <= 'Z') || ('\U{C0}' <= c <= '\U{DE}' && c != '\U{D7}') then (c as int + 32) as char else c
  }

  /** Python's `str.upper()` on one character, for the characters modelled: ASCII and Latin-1
      small letters (not U+00F7, the division sign) move up by 32. */
  function UpperChar(c: char): char {
    if ('a' <= c <= 'z') || ('\U{E0}' <= c <= '\U{FE}' && c != '\U{F7}') then (c as int - 32) as char else c
  }

  function Lower(s: string): (r: string)
    ensures |r| == |s|
    ensures forall k :: 0 <= k < |s| ==> r[k] == LowerChar(s[k])
  {
    seq(|s|, k requires 0 <= k < |s| => LowerChar(s[k]))
  }

  function Upper(s: string): (r: string)
    ensures |r| == |s|
    ensures forall k :: 0 <= k < |s| ==> r[k] == UpperChar(s[k])
  {
    seq(|s|, k requires 0 <= k < |s| => UpperChar(s[k]))
  }

  /** Upper-casing twice is upper-casing once, and upper-casing keeps every character in its
      case-insensitive class (the class `LowerChar` names). */
  lemma UpperIsCanonical(s: string)
    ensures Upper(Upper(s)) == Upper(s)
    ensures Lower(Upper(s)) == Lower(s)
  {
  }

  lemma LowerIsCanonical(s: string)
    ensures Lower(Lower(s)) == Lower(s)
  {
  }

  predicate IsNumeral(s: string) {
    |s| > 0 && forall k :: 0 <= k < |s| ==> IsDigit(s[k])
  }

  /** Python's `int(s)` on a string of ASCII digits (leading zeros allowed). */
  function NumeralValue(s: string): (v: nat)
    requires forall k :: 0 <= k < |s| ==> IsDigit(s[k])
    ensures v == 0 <==> forall k :: 0 <= k < |s| ==> s[k] == '0'
    decreases |s|
  {
    if |s| == 0 then 0
    else
      assert IsDigit(s[|s| - 1]);
      10 * NumeralValue(s[..|s| - 1]) + (s[|s| - 1] as int - '0' as int)
  }

  /** `int` ignores leading zeros. */
  lemma {:induction false} LeadingZeroIgnored(s: string)
    requires forall k :: 0 <= k < |s| ==> IsDigit(s[k])
    ensures NumeralValue("0" + s) == NumeralValue(s)
    decreases |s|
  {
    if |s| > 0 {
      var init := s[..|s| - 1];
      assert ("0" + s)[..|s|] == "0" + init;
      LeadingZeroIgnored(init);
    }
  }

  function DigitChar(d: nat): (c: char)
    requires d < 10
    ensures IsDigit(c) && c as int - '0' as int == d
  {
    ('0' as int + d) as char
  }

  /** Python's `str(n)` on a non-negative integer: the shortest decimal numeral, which `int`
      reads back as `n`. */
  function Numeral(n: nat): (s: string)
    ensures IsNumeral(s)
    ensures s[0] == '0' ==> s == "0"
    ensures NumeralValue(s) == n
    decreases n
  {
    if n < 10 then [DigitChar(n)]
    else
      var init := Numeral(n / 10);
      var s := init + [DigitChar(n % 10)];
      assert s[..|s| - 1] == init;
      s
  }

  /** Python's `str(i)` on any integer. */
  function IntToString(i: int): (s: string)
    ensures |s| > 0
    ensures s[0] == '-' <==> i < 0
    ensures i >= 0 ==> IsNumeral(s) && NumeralValue(s) == i && (s[0] == '0' ==> s == "0")
    ensures i < 0 ==> IsNumeral(s[1..]) && NumeralValue(s[1..]) == -i && s[1] != '0'
  {
    if i < 0 then
      var digits := Numeral(-i);
      assert ("-" + digits)[1..] == digits;
      "-" + digits
    else Numeral(i)
  }
}
