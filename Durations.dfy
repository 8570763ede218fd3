/**
  `parseTimeToMilliseconds`: the duration strings of a GoogleTest report
  ("0.125s") turned into milliseconds.  Numbers are exact reals here; the
  rounding of IEEE doubles is not modelled.
 */
module Durations {
  import opened Common
  import opened Strings

  predicate IsDigit(c: char) { '0' <= c <= '9' }

  predicate AllDigits(s: string)
  {
    forall i :: 0 <= i < |s| ==> IsDigit(s[i])
  }

  /** The value of a digit; only ever applied to digits. */
  function DigitValue(c: char): nat
  {
    if IsDigit(c) then c as int - '0' as int else 0
  }

  /** The value of a run of decimal digits read as a whole number. */
  function DigitsValue(ds: string): nat
  {
    if ds == [] then 0 else DigitsValue(ds[..|ds| - 1]) * 10 + DigitValue(ds[|ds| - 1])
  }

  /** The value of a run of decimal digits written after a decimal point. */
  function FracValue(ds: string): real
  {
    if ds == [] then 0.0 else (DigitValue(ds[0]) as real + FracValue(ds[1..])) / 10.0
  }

  function Pow10(e: int): (r: real)
    ensures r > 0.0
    decreases if e < 0 then -e else e
  {
    if e == 0 then 1.0
    else if e > 0 then 10.0 * Pow10(e - 1)
    else Pow10(e + 1) / 10.0
  }

  /** The length of the run of digits at the start of `s`. */
  function DigitRun(s: string): (n: nat)
    ensures n <= |s|
    ensures n < |s| ==> !IsDigit(s[n])
  {
    if s != [] && IsDigit(s[0]) then 1 + DigitRun(s[1..]) else 0
  }

  /** A number read from the start of a text, with the number of characters it spans. */
  datatype Scanned = Scanned(value: real, length: nat)

  /**
    The unsigned decimal number at the start of `body` ("12", "12.5",
    "12.", ".5") with the number of characters it spans, or None when
    `body` does not start with one.
   */
  function Mantissa(body: string): Option<Scanned>
  {
    var n := DigitRun(body);
    if n < |body| && body[n] == '.' then MantissaAfterPoint(body[..n], body[n + 1..])
    else if n == 0 then None
    else Some(Scanned(DigitsValue(body[..n]) as real, n))
  }

  /**
    The number whose digits before the point are `whole` and whose digits
    after it start `rest`: None when there are digits on neither side.
   */
  function MantissaAfterPoint(whole: string, rest: string): Option<Scanned>
  {
    var k := DigitRun(rest);
    if |whole| == 0 && k == 0 then None
    else Some(Scanned(DigitsValue(whole) as real + FracValue(rest[..k]), |whole| + 1 + k))
  }

  /** A number read from the start of `body` spans at least one of its characters and no more than all. */
  lemma MantissaLength(body: string)
    ensures Mantissa(body).Some? ==> 0 < Mantissa(body).value.length <= |body|
  {
  }

  /** The exponent part ("e5", "E-3") at the start of `s`, or 0 when there is none. */
  function Exponent(s: string): int
  {
    if s != [] && (s[0] == 'e' || s[0] == 'E') then
      var t := s[1..];
      var negative := t != [] && t[0] == '-';
      var digits := if t != [] && (t[0] == '-' || t[0] == '+') then t[1..] else t;
      var k := DigitRun(digits);
      if k == 0 then 0
      else if negative then -(DigitsValue(digits[..k]) as int)
      else DigitsValue(digits[..k])
    else 0
  }

  /**
    `Number.parseFloat(text)`: the longest prefix of `text` (after leading
    white space) that is a signed decimal literal, or None for NaN.
   */
  function ParseFloat(text: string): Option<real>
  {
    ParseSigned(TrimStart(text))
  }

  /** An optional sign followed by an unsigned number. */
  function ParseSigned(t: string): Option<real>
  {
    var negative := t != [] && t[0] == '-';
    var body := if t != [] && (t[0] == '-' || t[0] == '+') then t[1..] else t;
    match ScanNumber(body)
    case None => None
    case Some(v) => Some(if negative then -v else v)
  }

  /** The unsigned number, with its exponent applied, at the start of `body`. */
  function ScanNumber(body: string): Option<real>
  {
    match Mantissa(body)
    case None => None
    case Some(Scanned(m, used)) =>
      MantissaLength(body);
      Some(m * Pow10(Exponent(body[used..])))
  }

  /** `text.replace(/s$/, "")`: one trailing lower-case `s` is dropped. */
  function StripSecondsUnit(text: string): (r: string)
    ensures EndsWith(text, "s") ==> r == text[..|text| - 1]
    ensures !EndsWith(text, "s") ==> r == text
  {
    if text != [] && text[|text| - 1] == 's' then text[..|text| - 1] else text
  }

  /**
    `parseTimeToMilliseconds(value)`: 0 for a missing value, for blank text
    and for text that does not start with a number; otherwise the number of
    seconds it starts with (unit suffix `s` removed) times 1000.
   */
  function ParseTimeToMilliseconds(value: Option<string>): (r: real)
    ensures value.None? ==> r == 0.0
    ensures value.Some? && Trim(value.value) == [] ==> r == 0.0
    ensures value.Some? && ParseFloat(StripSecondsUnit(Trim(value.value))).None? ==> r == 0.0
  {
    match value
    case None => 0.0
    case Some(v) =>
      var text := Trim(v);
      if text == [] then 0.0
      else
        match ParseFloat(StripSecondsUnit(text))
        case None => 0.0
        case Some(seconds) => seconds * 1000.0
  }

  /** A decimal numeral as the duration fields of a report spell it: "-12.50". */
  datatype Numeral = Numeral(negative: bool, whole: string, fraction: Option<string>)
  {
    predicate Valid()
    {
      AllDigits(whole) && |whole| > 0 && (fraction.Some? ==> AllDigits(fraction.value))
    }

    /** The numeral without its sign. */
    function Unsigned(): string
    {
      whole + (if fraction.Some? then "." + fraction.value else "")
    }

    function Text(): string
    {
      (if negative then "-" else "") + Unsigned()
    }

    function Magnitude(): real
      requires Valid()
    {
      DigitsValue(whole) as real + (if fraction.Some? then FracValue(fraction.value) else 0.0)
    }

    function Value(): real
      requires Valid()
    {
      if negative then -Magnitude() else Magnitude()
    }
  }

  lemma {:induction false} DigitRunOfDigits(ds: string, rest: string)
    requires AllDigits(ds)
    requires rest == [] || !IsDigit(rest[0])
    ensures DigitRun(ds + rest) == |ds|
  {
    if ds != [] {
      assert (ds + rest)[1..] == ds[1..] + rest;
      DigitRunOfDigits(ds[1..], rest);
    } else {
      assert ds + rest == rest;
    }
  }

  lemma MantissaOfWhole(whole: string)
    requires AllDigits(whole) && |whole| > 0
    ensures Mantissa(whole) == Some(Scanned(DigitsValue(whole) as real, |whole|))
  {
    DigitRunOfDigits(whole, []);
    assert whole + [] == whole;
    assert whole[..|whole|] == whole;
  }

  /** Where the digits and the point of `whole.f` lie. */
  lemma {:induction false} FractionLayout(whole: string, f: string, body: string)
    requires AllDigits(whole) && AllDigits(f) && body == whole + "." + f
    ensures body[..|whole|] == whole && body[|whole| + 1..] == f
    ensures DigitRun(body) == |whole| && body[|whole|] == '.' && DigitRun(f) == |f|
  {
    var n := |whole|;
    assert body == whole + ("." + f);
    DigitRunOfDigits(whole, "." + f);
    assert body[n + 1..] == f;
    DigitRunOfDigits(f, []);
    assert f + [] == f;
  }

  lemma MantissaOfFraction(whole: string, f: string, body: string)
    requires AllDigits(whole) && |whole| > 0 && AllDigits(f) && body == whole + "." + f
    ensures Mantissa(body) == Some(Scanned(DigitsValue(whole) as real + FracValue(f), |whole| + 1 + |f|))
  {
    FractionLayout(whole, f, body);
    assert Mantissa(body) == MantissaAfterPoint(whole, f);
    AfterPointOfDigits(whole, f);
  }

  lemma AfterPointOfDigits(whole: string, f: string)
    requires |whole| > 0 && DigitRun(f) == |f|
    ensures MantissaAfterPoint(whole, f) == Some(Scanned(DigitsValue(whole) as real + FracValue(f), |whole| + 1 + |f|))
  {
    assert f[..|f|] == f;
  }

  lemma MantissaOfNumeral(n: Numeral)
    requires n.Valid()
    ensures Mantissa(n.Unsigned()) == Some(Scanned(n.Magnitude(), |n.Unsigned()|))
  {
    match n.fraction
    case None =>
      assert n.Unsigned() == n.whole + "";
      assert n.whole + "" == n.whole;
      MantissaOfWhole(n.whole);
    case Some(f) =>
      assert n.Unsigned() == n.whole + "." + f;
      MantissaOfFraction(n.whole, f, n.Unsigned());
  }

  /** How `ParseFloat` reads an optional minus sign followed by a whole unsigned number. */
  lemma ParseFloatOfSigned(t: string, body: string, negative: bool, m: real)
    requires t == (if negative then "-" else "") + body
    requires body != [] && body[0] != '-' && body[0] != '+' && !IsWhitespace(body[0])
    requires Mantissa(body) == Some(Scanned(m, |body|))
    ensures ParseFloat(t) == Some(if negative then -m else m)
  {
    assert t[0] == (if negative then '-' else body[0]);
    assert TrimStart(t) == t;
    ScanWholeNumber(body, m);
    if negative {
      assert t == "-" + body;
      ParseSignedNegative(body, m);
    } else {
      assert t == body;
    }
  }

  /** A number that takes up all of `body` has no exponent part. */
  lemma ScanWholeNumber(body: string, m: real)
    requires Mantissa(body) == Some(Scanned(m, |body|))
    ensures ScanNumber(body) == Some(m)
  {
    assert body[|body|..] == [];
    assert Exponent([]) == 0 && Pow10(0) == 1.0;
  }

  /** A minus sign in front of a number negates it. */
  lemma ParseSignedNegative(body: string, v: real)
    requires body != [] && body[0] != '-' && body[0] != '+'
    requires ScanNumber(body) == Some(v)
    ensures ParseSigned("-" + body) == Some(-v)
  {
    var t := "-" + body;
    assert t[0] == '-';
    assert t[1..] == body;
  }

  /** Parsing a rendered numeral gives back its value. */
  lemma ParseFloatOfNumeral(n: Numeral)
    requires n.Valid()
    ensures ParseFloat(n.Text()) == Some(n.Value())
  {
    var body := n.Unsigned();
    assert body[0] == n.whole[0] && IsDigit(body[0]);
    assert !IsWhitespace(body[0]) && body[0] != '-' && body[0] != '+';
    MantissaOfNumeral(n);
    ParseFloatOfSigned(n.Text(), n.Unsigned(), n.negative, n.Magnitude());
  }

  /** A rendered numeral starts with a sign or a digit and ends with a digit or the point. */
  lemma NumeralEnds(n: Numeral)
    requires n.Valid()
    ensures var t := n.Text();
      t != [] && (t[0] == '-' || IsDigit(t[0])) && (IsDigit(t[|t| - 1]) || t[|t| - 1] == '.')
  {
    var t := n.Text();
    assert t[0] == '-' || t[0] == n.whole[0];
    match n.fraction
    case None =>
      assert t[|t| - 1] == n.whole[|n.whole| - 1];
    case Some(f) =>
      assert f != [] ==> t[|t| - 1] == f[|f| - 1];
      assert f == [] ==> t[|t| - 1] == '.';
  }

  /** How `parseTimeToMilliseconds` reads text that is already trimmed. */
  lemma ParseTimeOfTrimmed(v: string, t: string, x: real)
    requires v != [] && !IsWhitespace(v[0]) && !IsWhitespace(v[|v| - 1])
    requires StripSecondsUnit(v) == t && ParseFloat(t) == Some(x)
    ensures ParseTimeToMilliseconds(Some(v)) == x * 1000.0
  {
    TrimOfTrimmed(v);
  }

  /** Appending the unit to a numeral gives trimmed text from which the unit is stripped again. */
  lemma UnitOfNumeral(n: Numeral, withUnit: bool, v: string)
    requires n.Valid() && v == n.Text() + (if withUnit then "s" else "")
    ensures v != [] && !IsWhitespace(v[0]) && !IsWhitespace(v[|v| - 1])
    ensures StripSecondsUnit(v) == n.Text()
  {
    var t := n.Text();
    NumeralEnds(n);
    assert v[0] == t[0];
    assert v[|v| - 1] == (if withUnit then 's' else t[|t| - 1]);
    if withUnit {
      assert v[..|v| - 1] == t;
    } else {
      assert v == t;
    }
  }

  /**
    A duration written as a numeral followed by the unit `s` is that many
    seconds in milliseconds; the unit may also be left off.
   */
  lemma SecondsToMilliseconds(n: Numeral, withUnit: bool)
    requires n.Valid()
    ensures ParseTimeToMilliseconds(Some(n.Text() + (if withUnit then "s" else ""))) == n.Value() * 1000.0
  {
    var v := n.Text() + (if withUnit then "s" else "");
    UnitOfNumeral(n, withUnit, v);
    ParseFloatOfNumeral(n);
    ParseTimeOfTrimmed(v, n.Text(), n.Value());
  }

  /**
    Text whose first non-blank character is a letter is worth 0 ms. The
    source reads text starting with "Infinity" as an infinite duration;
    the model, which has no infinity, gives 0 for it too.
   */
  lemma {:induction false} LetterFirstIsZero(v: string)
    requires Trim(v) != [] && IsLetter(Trim(v)[0])
    ensures ParseTimeToMilliseconds(Some(v)) == 0.0
  {
    var text := Trim(v);
    var stripped := StripSecondsUnit(text);
    assert stripped != [] ==> stripped[0] == text[0];
    NoNumberBeforeLetter(stripped);
  }

  predicate IsLetter(c: char)
  {
    'a' <= c <= 'z' || 'A' <= c <= 'Z'
  }

  /** `Number.parseFloat` finds no number in text that is empty or starts with a letter. */
  lemma NoNumberBeforeLetter(t: string)
    requires t == [] || IsLetter(t[0])
    ensures ParseFloat(t).None?
  {
    if t != [] {
      assert TrimStart(t) == t;
      assert DigitRun(t) == 0 && t[0] != '.';
      assert Mantissa(t).None?;
      assert ScanNumber(t).None?;
      assert t[0] != '-' && t[0] != '+';
    } else {
      assert ScanNumber(t).None?;
    }
  }
}
