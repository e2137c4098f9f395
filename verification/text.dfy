/** Character classes and string helpers shared by the form validators:
    JavaScript's notion of whitespace (what `String.prototype.trim` strips and
    what the regular-expression class `\s` matches), ASCII letters and digits,
    ASCII upper-casing, and decimal rendering of natural numbers. */
module Text {

  /** WhiteSpace or LineTerminator in the sense of sections 12.2 and 12.3 of
      ECMA-262: tab, line feed, vertical tab, form feed, carriage return, space,
      no-break space, the Unicode space separators, the line and paragraph
      separators, and the byte-order mark. */
  predicate IsWhitespace(c: char)
  {
    || c == '\t' || c == '\n' || c == '\U{000B}' || c == '\U{000C}' || c == '\r'
    || c == ' ' || c == '\U{00A0}' || c == '\U{1680}'
    || ('\U{2000}' <= c <= '\U{200A}')
    || c == '\U{2028}' || c == '\U{2029}' || c == '\U{202F}' || c == '\U{205F}'
    || c == '\U{3000}' || c == '\U{FEFF}'
  }

  /** `[0-9]` */
  predicate IsDigit(c: char)
  {
    '0' <= c <= '9'
  }

  /** `[A-Z]` matched case-insensitively, which in a non-Unicode JavaScript
      pattern admits exactly the ASCII letters of either case. */
  predicate IsLetter(c: char)
  {
    'A' <= c <= 'Z' || 'a' <= c <= 'z'
  }

  predicate AllDigits(s: string)
  {
    forall i :: 0 <= i < |s| ==> IsDigit(s[i])
  }

  predicate AllWhitespace(s: string)
  {
    forall i :: 0 <= i < |s| ==> IsWhitespace(s[i])
  }

  /** `s` without its leading whitespace. */
  function TrimStart(s: string): (r: string)
    ensures |r| <= |s| && r == s[|s| - |r|..]
    ensures r == [] || !IsWhitespace(r[0])
    ensures AllWhitespace(s[..|s| - |r|])
  {
    if s != [] && IsWhitespace(s[0]) then TrimStart(s[1..]) else s
  }

  /** `s` without its trailing whitespace. */
  function TrimEnd(s: string): (r: string)
    ensures |r| <= |s| && r == s[..|r|]
    ensures r == [] || !IsWhitespace(r[|r| - 1])
    ensures AllWhitespace(s[|r|..])
  {
    if s != [] && IsWhitespace(s[|s| - 1]) then TrimEnd(s[..|s| - 1]) else s
  }

  /** `s.trim()`: the part of `s` between its leading and trailing whitespace. */
  function Trim(s: string): (r: string)
    ensures |r| <= |s|
    ensures exists lo :: 0 <= lo <= |s| - |r| && r == s[lo..lo + |r|]
                        && AllWhitespace(s[..lo]) && AllWhitespace(s[lo + |r|..])
    ensures r == [] || (!IsWhitespace(r[0]) && !IsWhitespace(r[|r| - 1]))
  {
    var t := TrimStart(s);
    var r := TrimEnd(t);
    var lo := |s| - |t|;
    assert r == s[lo..lo + |r|];
    assert s[lo + |r|..] == t[|r|..];
    r
  }

  /** A string trims to nothing exactly when it is all whitespace, which is how
      `!x.trim()` reads in JavaScript. */
  lemma TrimEmptyIffWhitespace(s: string)
    ensures Trim(s) == [] <==> AllWhitespace(s)
  {
    var r := Trim(s);
    var lo :| 0 <= lo <= |s| - |r| && r == s[lo..lo + |r|]
              && AllWhitespace(s[..lo]) && AllWhitespace(s[lo + |r|..]);
    if r == [] {
      forall i | 0 <= i < |s|
        ensures IsWhitespace(s[i])
      {
        if i < lo {
          assert s[..lo][i] == s[i];
        } else {
          assert s[lo..][i - lo] == s[i];
        }
      }
    } else {
      assert s[lo] == r[0];
    }
  }

  /** Upper-case image of one ASCII character; every other character is kept. */
  function UpperChar(c: char): char
  {
    if 'a' <= c <= 'z' then (c as int - 'a' as int + 'A' as int) as char else c
  }

  /** `s.toUpperCase()` restricted to ASCII: lower-case ASCII letters become
      upper-case, everything else is kept, and the length is preserved. */
  function AsciiUpper(s: string): (r: string)
    ensures |r| == |s|
    ensures forall i :: 0 <= i < |s| ==> r[i] == UpperChar(s[i])
  {
    seq(|s|, i requires 0 <= i < |s| => UpperChar(s[i]))
  }

  /** Upper-casing keeps letters letters, turns them upper-case, and leaves
      every non-letter alone; doing it twice is doing it once. */
  lemma AsciiUpperFacts(s: string)
    ensures forall i :: 0 <= i < |s| && IsLetter(s[i]) ==> 'A' <= AsciiUpper(s)[i] <= 'Z'
    ensures forall i :: 0 <= i < |s| && !IsLetter(s[i]) ==> AsciiUpper(s)[i] == s[i]
    ensures forall i :: 0 <= i < |s| ==> (IsLetter(AsciiUpper(s)[i]) <==> IsLetter(s[i]))
    ensures AsciiUpper(AsciiUpper(s)) == AsciiUpper(s)
  {
  }

  /** The character for a decimal digit value. */
  function DigitChar(d: nat): (c: char)
    requires d < 10
    ensures IsDigit(c)
  {
    ('0' as int + d) as char
  }

  /** `n.toString()` for a natural number: its decimal digits, most significant
      first, without leading zeros. */
  function NatToDecimal(n: nat): (r: string)
    ensures |r| >= 1 && AllDigits(r)
    ensures n > 0 ==> r[0] != '0'
  {
    if n < 10 then [DigitChar(n)] else NatToDecimal(n / 10) + [DigitChar(n % 10)]
  }

  /** The number a string of decimal digits denotes. */
  function DecimalValue(s: string): nat
    requires AllDigits(s)
  {
    if s == [] then 0 else DecimalValue(s[..|s| - 1]) * 10 + (s[|s| - 1] as int - '0' as int)
  }

  /** Reading back a rendered number gives the number. */
  lemma {:induction false} DecimalRoundTrip(n: nat)
    ensures DecimalValue(NatToDecimal(n)) == n
  {
    if n >= 10 {
      var r := NatToDecimal(n);
      assert r[..|r| - 1] == NatToDecimal(n / 10);
      DecimalRoundTrip(n / 10);
    }
  }

  /** The numbers from 1000 to 9999 render as exactly four digits. */
  lemma FourDigits(n: nat)
    requires 1000 <= n <= 9999
    ensures |NatToDecimal(n)| == 4
  {
    var a, b, c := n / 10, n / 100, n / 1000;
    assert a / 10 == b && b / 10 == c;
    assert |NatToDecimal(c)| == 1;
    assert |NatToDecimal(b)| == |NatToDecimal(c)| + 1;
    assert |NatToDecimal(a)| == |NatToDecimal(b)| + 1;
    assert |NatToDecimal(n)| == |NatToDecimal(a)| + 1;
  }
}
