/**
 * The string operations the loaders and the material filter rely on, as Python
 * performs them: `str.strip()`, `str.lower()`, the substring test `in`,
 * `str.replace(',', '.')` and `float(str)`.
 */
module Text {
  import opened Wrappers

  /** The characters Python's `str.isspace` accepts, i.e. those `str.strip()` removes. */
  predicate IsSpace(c: char) {
    || c == ' '
    || ('\t' <= c <= '\r')
    || ('\U{1C}' <= c <= '\U{1F}')
    || c == '\U{85}' || c == '\U{A0}' || c == '\U{1680}'
    || ('\U{2000}' <= c <= '\U{200A}')
    || c == '\U{2028}' || c == '\U{2029}' || c == '\U{202F}' || c == '\U{205F}' || c == '\U{3000}'
  }

  /** `str.lstrip()`. Its properties are stated by `TrimStartShape`, so that the
      loaders that call it do not carry them into every proof. */
  function TrimStart(s: string): string {
    if s != [] && IsSpace(s[0]) then TrimStart(s[1..]) else s
  }

  /** `str.rstrip()`; see `TrimEndShape`. */
  function TrimEnd(s: string): string {
    if s != [] && IsSpace(s[|s| - 1]) then TrimEnd(s[..|s| - 1]) else s
  }

  /** `str.strip()`. */
  function Strip(s: string): string {
    TrimEnd(TrimStart(s))
  }

  /** `lstrip` drops a run of white space from the front and stops at the first
      character that is not white space. */
  lemma {:induction false} TrimStartShape(s: string)
    ensures |TrimStart(s)| <= |s| && TrimStart(s) == s[|s| - |TrimStart(s)|..]
    ensures forall i :: 0 <= i < |s| - |TrimStart(s)| ==> IsSpace(s[i])
    ensures TrimStart(s) == [] || !IsSpace(TrimStart(s)[0])
  {
    if s != [] && IsSpace(s[0]) {
      TrimStartShape(s[1..]);
      forall i | 1 <= i < |s| - |TrimStart(s)|
        ensures IsSpace(s[i])
      {
        assert s[i] == s[1..][i - 1];
      }
    }
  }

  /** `rstrip` drops a run of white space from the back and stops at the last
      character that is not white space. */
  lemma {:induction false} TrimEndShape(s: string)
    ensures |TrimEnd(s)| <= |s| && TrimEnd(s) == s[..|TrimEnd(s)|]
    ensures forall i :: |TrimEnd(s)| <= i < |s| ==> IsSpace(s[i])
    ensures TrimEnd(s) == [] || !IsSpace(TrimEnd(s)[|TrimEnd(s)| - 1])
  {
    if s != [] && IsSpace(s[|s| - 1]) {
      TrimEndShape(s[..|s| - 1]);
    }
  }

  /** Stripping keeps a contiguous part of the text, drops only white space around it,
      and leaves no white space at either end. */
  lemma StripWindow(s: string)
    ensures exists a, b :: (0 <= a <= b <= |s| && Strip(s) == s[a..b]
      && (forall i :: 0 <= i < a ==> IsSpace(s[i]))
      && (forall i :: b <= i < |s| ==> IsSpace(s[i])))
    ensures Strip(s) == [] || (!IsSpace(Strip(s)[0]) && !IsSpace(Strip(s)[|Strip(s)| - 1]))
  {
    var t := TrimStart(s);
    var r := TrimEnd(t);
    TrimStartShape(s);
    TrimEndShape(t);
    var a := |s| - |t|;
    assert r == s[a..a + |r|];
    forall i | a + |r| <= i < |s|
      ensures IsSpace(s[i])
    {
      assert s[i] == t[i - a];
    }
    assert r == [] || r[0] == t[0];
  }

  /** Text without white space at its ends is left alone by `strip()`. */
  lemma StripUnpadded(t: string)
    requires t == [] || (!IsSpace(t[0]) && !IsSpace(t[|t| - 1]))
    ensures Strip(t) == t
  {
  }

  /** Stripping twice is stripping once. */
  lemma StripIdempotent(s: string)
    ensures Strip(Strip(s)) == Strip(s)
  {
    StripWindow(s);
    StripUnpadded(Strip(s));
  }

  /** `str.lower()` on one character, for ASCII, Latin-1 and the Russian alphabet. */
  function LowerChar(c: char): (r: char)
    ensures IsSpace(r) <==> IsSpace(c)
  {
    if ('A' <= c <= 'Z') || ('\U{C0}' <= c <= '\U{DE}' && c != '\U{D7}') || ('\U{410}' <= c <= '\U{42F}') then
      (c as int + 0x20) as char
    else if '\U{400}' <= c <= '\U{40F}' then
      (c as int + 0x50) as char
    else
      c
  }

  /** `str.lower()`: the text keeps its length and its white space where it was. */
  function Lower(s: string): (r: string)
    ensures |r| == |s|
    ensures forall i :: 0 <= i < |s| ==> (IsSpace(r[i]) <==> IsSpace(s[i]))
  {
    seq(|s|, i requires 0 <= i < |s| => LowerChar(s[i]))
  }

  /** Lower-cased text has no capital left: lower-casing it again changes nothing. */
  lemma LowerIdempotent(s: string)
    ensures Lower(Lower(s)) == Lower(s)
  {
  }

  lemma {:induction false} TrimStartLower(s: string)
    ensures TrimStart(Lower(s)) == Lower(TrimStart(s))
  {
    if s != [] && IsSpace(s[0]) {
      assert Lower(s)[1..] == Lower(s[1..]);
      TrimStartLower(s[1..]);
    }
  }

  lemma {:induction false} TrimEndLower(s: string)
    ensures TrimEnd(Lower(s)) == Lower(TrimEnd(s))
  {
    if s != [] && IsSpace(s[|s| - 1]) {
      assert Lower(s)[..|s| - 1] == Lower(s[..|s| - 1]);
      TrimEndLower(s[..|s| - 1]);
    }
  }

  /** Lower-casing never turns white space into text or back, so `s.lower().strip()` and
      `s.strip().lower()` are the same key. */
  lemma StripLowerCommute(s: string)
    ensures Strip(Lower(s)) == Lower(Strip(s))
  {
    TrimStartLower(s);
    TrimEndLower(TrimStart(s));
  }

  /** `pattern` occurs in `text` starting at index `i`. */
  predicate OccursAt(text: string, pattern: string, i: int) {
    0 <= i <= |text| - |pattern| && text[i..i + |pattern|] == pattern
  }

  /** Python's `pattern in text` on strings: `pattern` occurs somewhere in `text`. */
  predicate Contains(text: string, pattern: string) {
    exists i :: 0 <= i <= |text| - |pattern| && OccursAt(text, pattern, i)
  }

  /** `s.replace(',', '.')`: every comma becomes a point and nothing else changes. */
  function ReplaceComma(s: string): (r: string)
    ensures |r| == |s| && ',' !in r
    ensures forall i :: 0 <= i < |s| && s[i] != ',' ==> r[i] == s[i]
  {
    seq(|s|, i requires 0 <= i < |s| => if s[i] == ',' then '.' else s[i])
  }

  predicate IsDigit(c: char) {
    '0' <= c <= '9'
  }

  predicate AllDigits(s: string) {
    forall i :: 0 <= i < |s| ==> IsDigit(s[i])
  }

  /** The value of a string of decimal digits, most significant first. */
  function DigitsValue(ds: string): nat
    requires AllDigits(ds)
  {
    if ds == [] then 0 else 10 * DigitsValue(ds[..|ds| - 1]) + (ds[|ds| - 1] as int - '0' as int)
  }

  function Pow10(n: nat): (r: nat)
    ensures r >= 1
  {
    if n == 0 then 1 else 10 * Pow10(n - 1)
  }

  /** The index of the first '.' in `s`, if any. */
  function PointIndex(s: string): (r: Option<nat>)
    ensures r.None? <==> '.' !in s
    ensures r.Some? ==> r.value < |s| && s[r.value] == '.' && '.' !in s[..r.value]
  {
    if s == [] then None
    else if s[0] == '.' then Some(0)
    else match PointIndex(s[1..])
      case None => None
      case Some(k) =>
        assert s[..k + 1] == [s[0]] + s[1..][..k];
        Some(k + 1)
  }

  /** The number that the digits `whole`, a point and the digits `fraction` spell. */
  function DecimalValue(whole: string, fraction: string): real
    requires AllDigits(whole) && AllDigits(fraction)
  {
    DigitsValue(whole) as real + DigitsValue(fraction) as real / Pow10(|fraction|) as real
  }

  /** An unsigned decimal in plain notation: `ddd`, `ddd.ddd`, `ddd.` or `.ddd`. */
  function UnsignedDecimal(s: string): Option<real> {
    match PointIndex(s)
    case None =>
      if s != [] && AllDigits(s) then Some(DigitsValue(s) as real) else None
    case Some(k) =>
      var whole, fraction := s[..k], s[k + 1..];
      if (whole != [] || fraction != []) && AllDigits(whole) && AllDigits(fraction) then
        Some(DecimalValue(whole, fraction))
      else
        None
  }

  /** Python's `float(text)` on decimal text: white space around it is ignored and one
      leading sign is allowed; any other text is refused (Python raises ValueError). */
  function ParseFloat(text: string): Option<real> {
    var s := Strip(text);
    if s != [] && s[0] == '-' then
      match UnsignedDecimal(s[1..])
      case Some(x) => Some(-x)
      case None => None
    else if s != [] && s[0] == '+' then
      UnsignedDecimal(s[1..])
    else
      UnsignedDecimal(s)
  }

  /** `float(text.replace(',', '.'))`: the loaders' reading of a numeric cell, which
      accepts a decimal comma as well as a decimal point. */
  function ParseCommaFloat(text: string): Option<real> {
    ParseFloat(ReplaceComma(text))
  }

  /** White space around a number never changes what it parses to. */
  lemma ParseFloatIgnoresPadding(text: string)
    ensures ParseFloat(Strip(text)) == ParseFloat(text)
  {
    StripIdempotent(text);
  }

  lemma PointAfter(whole: string, fraction: string)
    requires AllDigits(whole)
    ensures PointIndex(whole + "." + fraction) == Some(|whole|)
  {
    var s := whole + "." + fraction;
    assert s[|whole|] == '.';
    assert forall i :: 0 <= i < |whole| ==> s[i] == whole[i] && IsDigit(s[i]);
  }

  lemma UnsignedPointValue(whole: string, fraction: string)
    requires AllDigits(whole) && AllDigits(fraction) && whole != []
    ensures UnsignedDecimal(whole + "." + fraction)
         == Some(DecimalValue(whole, fraction))
  {
    var t := whole + "." + fraction;
    PointAfter(whole, fraction);
    var k := |whole|;
    assert t[..k] == whole;
    assert t[k + 1..] == fraction;
  }

  /** Digits, a point and digits read as the decimal number they spell. */
  lemma UnsignedDecimalValue(whole: string, fraction: string)
    requires AllDigits(whole) && AllDigits(fraction) && whole != []
    ensures ParseFloat(whole + "." + fraction)
         == Some(DecimalValue(whole, fraction))
  {
    var t := whole + "." + fraction;
    assert t[0] == whole[0] && IsDigit(t[0]);
    assert t[|t| - 1] != '.' ==> t[|t| - 1] == fraction[|fraction| - 1] && IsDigit(t[|t| - 1]);
    StripUnpadded(t);
    UnsignedPointValue(whole, fraction);
  }

  lemma ReplaceCommaAt(whole: string, fraction: string)
    requires AllDigits(whole) && AllDigits(fraction)
    ensures ReplaceComma(whole + "," + fraction) == whole + "." + fraction
  {
    var s := whole + "," + fraction;
    var t := ReplaceComma(s);
    forall i | 0 <= i < |s|
      ensures t[i] == (whole + "." + fraction)[i]
    {
      if i < |whole| {
        assert s[i] == whole[i] && IsDigit(s[i]);
      } else if i > |whole| {
        assert s[i] == fraction[i - |whole| - 1] && IsDigit(s[i]);
      }
    }
  }

  /** A decimal comma reads exactly like a decimal point: "12,5" is 12.5. */
  lemma ParseDecimalComma(whole: string, fraction: string)
    requires AllDigits(whole) && AllDigits(fraction) && whole != []
    ensures ParseCommaFloat(whole + "," + fraction)
         == Some(DecimalValue(whole, fraction))
  {
    ReplaceCommaAt(whole, fraction);
    UnsignedDecimalValue(whole, fraction);
  }

  /** The decimal digits of a natural number, most significant first, "0" for zero. */
  function NaturalText(n: nat): (r: string)
    ensures r != [] && AllDigits(r)
  {
    if n < 10 then [('0' as int + n) as char] else NaturalText(n / 10) + [('0' as int + n % 10) as char]
  }

  lemma {:induction false} NaturalTextValue(n: nat)
    ensures DigitsValue(NaturalText(n)) == n
  {
    if n >= 10 {
      NaturalTextValue(n / 10);
      var r := NaturalText(n);
      assert r[..|r| - 1] == NaturalText(n / 10);
    }
  }

  /** Parsing inverts printing: a whole number written out in decimal reads back as itself. */
  lemma ParseNaturalText(n: nat)
    ensures ParseFloat(NaturalText(n)) == Some(n as real)
  {
    var t := NaturalText(n);
    NaturalTextValue(n);
    assert IsDigit(t[0]) && IsDigit(t[|t| - 1]);
    StripUnpadded(t);
    assert forall i :: 0 <= i < |t| ==> IsDigit(t[i]) && t[i] != '.';
  }
}
