/** The pieces of the Kotlin and Java runtimes that the view-models lean on
    for text: Kotlin's String.isBlank, Java's decimal rendering of an integer
    (Int.toString, Long.toString) and the reading of a signed run of decimal
    digits as Java's Double.parseDouble does it. */
module Text {
  import opened Wrappers

  /** Kotlin's Char.isWhitespace on Android's runtime (ART): Character.isWhitespace
      or Character.isSpaceChar, i.e. the ASCII layout controls, the
      information separators and every Unicode space, line and paragraph
      separator (the no-break spaces included). Android's Character tables
      come from its ICU; this is the set of Unicode 6.3 and later, where
      U+180E MONGOLIAN VOWEL SEPARATOR is no longer a space. */
  predicate IsWhitespace(c: char) {
    || '\t' <= c <= '\r'
    || '\U{1C}' <= c <= '\U{1F}'
    || c == ' ' || c == '\U{A0}' || c == '\U{1680}'
    || '\U{2000}' <= c <= '\U{200A}'
    || c == '\U{2028}' || c == '\U{2029}' || c == '\U{202F}' || c == '\U{205F}' || c == '\U{3000}'
  }

  /** Kotlin's CharSequence.isBlank: the text is empty or whitespace only. */
  predicate IsBlank(s: string)
    ensures s == [] ==> IsBlank(s)
    ensures IsBlank(s) && |s| > 0 ==> IsWhitespace(s[0]) && IsBlank(s[1..])
  {
    forall i :: 0 <= i < |s| ==> IsWhitespace(s[i])
  }

  predicate IsDigit(c: char) {
    '0' <= c <= '9'
  }

  predicate IsDigits(s: string) {
    |s| > 0 && forall i :: 0 <= i < |s| ==> IsDigit(s[i])
  }

  function DigitValue(c: char): (d: nat)
    requires IsDigit(c)
    ensures d < 10
  {
    c as int - '0' as int
  }

  function DigitChar(d: nat): (c: char)
    requires d < 10
    ensures IsDigit(c) && DigitValue(c) == d
  {
    ('0' as int + d) as char
  }

  /** The decimal digits of n, most significant first. */
  function Digits(n: nat): (s: string)
    ensures IsDigits(s)
    ensures s[0] == '0' <==> n == 0
  {
    if n < 10 then [DigitChar(n)] else Digits(n / 10) + [DigitChar(n % 10)]
  }

  /** Java's Integer.toString and Long.toString: a minus sign for a negative
      value, then the digits without leading zeros. */
  function DecimalString(n: int): (s: string)
    ensures |s| > 0 && (s[0] == '-' <==> n < 0)
    ensures IsDigits(if n < 0 then s[1..] else s)
  {
    if n < 0 then "-" + Digits(-n) else Digits(n)
  }

  /** The value of a run of decimal digits. */
  function DigitsValue(s: string): nat
    requires forall i :: 0 <= i < |s| ==> IsDigit(s[i])
  {
    if s == [] then 0 else DigitsValue(s[..|s| - 1]) * 10 + DigitValue(s[|s| - 1])
  }

  /** The integer Double.parseDouble reads from text made of an optional
      sign and one or more decimal digits; None for any other text. */
  function ParseDecimal(s: string): (r: Option<int>)
    ensures r.Some? ==> |s| > 0 && (IsDigit(s[0]) || s[0] == '-' || s[0] == '+')
    ensures r.Some? && r.value < 0 ==> s[0] == '-'
  {
    if |s| > 0 && (s[0] == '-' || s[0] == '+') && IsDigits(s[1..]) then
      var magnitude: int := DigitsValue(s[1..]);
      Some(if s[0] == '-' then -magnitude else magnitude)
    else if IsDigits(s) then
      Some(DigitsValue(s))
    else
      None
  }

  lemma {:induction false} DigitsValueOfDigits(n: nat)
    ensures DigitsValue(Digits(n)) == n
  {
    if n >= 10 {
      var s := Digits(n);
      assert s[..|s| - 1] == Digits(n / 10);
      DigitsValueOfDigits(n / 10);
    }
  }

  /** Reading back the decimal rendering of any integer gives that integer. */
  lemma DecimalRoundTrip(n: int)
    ensures ParseDecimal(DecimalString(n)) == Some(n)
  {
    var s := DecimalString(n);
    if n < 0 {
      var digits := Digits(-n);
      assert s == "-" + digits && s[1..] == digits;
      DigitsValueOfDigits(-n);
      assert s[0] == '-' && IsDigits(s[1..]) && DigitsValue(s[1..]) == -n;
    } else {
      assert s == Digits(n);
      DigitsValueOfDigits(n);
      assert IsDigits(s) && IsDigit(s[0]) && DigitsValue(s) == n;
    }
  }

  /** Distinct integers have distinct decimal renderings. */
  lemma DecimalStringInjective(a: int, b: int)
    requires a != b
    ensures DecimalString(a) != DecimalString(b)
  {
    DecimalRoundTrip(a);
    DecimalRoundTrip(b);
  }
}
