/**
 * The JavaScript string and number primitives the front end leans on:
 * `String.prototype.trim`, `includes`, `parseFloat`, and the decimal text of
 * a small natural number. Numbers are exact reals: IEEE-754 rounding,
 * overflow to Infinity and underflow to 0 are not modelled.
 */
module JsText {

  import opened Base

  /** ECMAScript WhiteSpace and LineTerminator code points, the set `trim` and `parseFloat` skip. */
  predicate IsSpace(c: char) {
    || c == ' ' || c == '\t' || c == '\n' || c == '\r'
    || c == '\U{B}' || c == '\U{C}' || c == '\U{A0}' || c == '\U{1680}'
    || ('\U{2000}' <= c <= '\U{200A}')
    || c == '\U{2028}' || c == '\U{2029}' || c == '\U{202F}' || c == '\U{205F}'
    || c == '\U{3000}' || c == '\U{FEFF}'
  }

  predicate AllSpace(s: string) {
    forall i :: 0 <= i < |s| ==> IsSpace(s[i])
  }

  /** `s` with its leading white space removed. */
  function TrimStart(s: string): (r: string)
    ensures |r| <= |s| && r == s[|s| - |r|..]
    ensures AllSpace(s[..|s| - |r|])
    ensures |r| > 0 ==> !IsSpace(r[0])
  {
    if |s| > 0 && IsSpace(s[0]) then TrimStart(s[1..]) else s
  }

  /** `s` with its trailing white space removed. */
  function TrimEnd(s: string): (r: string)
    ensures |r| <= |s| && r == s[..|r|]
    ensures AllSpace(s[|r|..])
    ensures |r| > 0 ==> !IsSpace(r[|r| - 1])
  {
    if |s| > 0 && IsSpace(s[|s| - 1]) then TrimEnd(s[..|s| - 1]) else s
  }

  /** `String.prototype.trim`. */
  function Trim(s: string): string {
    TrimEnd(TrimStart(s))
  }

  lemma {:induction false} TrimStartOfSpace(s: string)
    requires AllSpace(s)
    ensures TrimStart(s) == ""
  {
    if |s| > 0 {
      TrimStartOfSpace(s[1..]);
    }
  }

  /** Leading-space removal stops at or before the first non-space character. */
  lemma {:induction false} TrimStartKeeps(s: string, i: int)
    requires 0 <= i < |s| && !IsSpace(s[i])
    ensures |TrimStart(s)| >= |s| - i
  {
    if i > 0 && IsSpace(s[0]) {
      TrimStartKeeps(s[1..], i - 1);
    }
  }

  /** Trailing-space removal stops at or after the last non-space character. */
  lemma {:induction false} TrimEndKeeps(s: string, i: int)
    requires 0 <= i < |s| && !IsSpace(s[i])
    ensures |TrimEnd(s)| > i
  {
    if i < |s| - 1 && IsSpace(s[|s| - 1]) {
      TrimEndKeeps(s[..|s| - 1], i);
    }
  }

  /** A string trims to the empty string exactly when it is all white space. */
  lemma TrimEmptyIffAllSpace(s: string)
    ensures Trim(s) == "" <==> AllSpace(s)
  {
    if AllSpace(s) {
      TrimStartOfSpace(s);
      assert Trim(s) == TrimEnd("");
    } else {
      var i :| 0 <= i < |s| && !IsSpace(s[i]);
      TrimNonSpace(s, i);
    }
  }

  lemma TrimNonSpace(s: string, i: int)
    requires 0 <= i < |s| && !IsSpace(s[i])
    ensures Trim(s) != ""
  {
    var t := TrimStart(s);
    TrimStartKeeps(s, i);
    var j := i - (|s| - |t|);
    assert t[j] == s[i];
    TrimEndKeeps(t, j);
  }

  predicate StartsWith(s: string, prefix: string) {
    |prefix| <= |s| && s[..|prefix|] == prefix
  }

  /** `String.prototype.includes`. */
  predicate Contains(s: string, part: string) {
    exists i | 0 <= i <= |s| - |part| :: OccursAt(s, part, i)
  }

  predicate OccursAt(s: string, part: string, i: int) {
    0 <= i <= |s| - |part| && s[i..i + |part|] == part
  }

  // ---------------------------------------------------------------------
  // Decimal digits

  predicate IsDigit(c: char) {
    '0' <= c <= '9'
  }

  predicate AllDigits(s: string) {
    forall i :: 0 <= i < |s| ==> IsDigit(s[i])
  }

  function DigitValue(c: char): (d: nat)
    requires IsDigit(c)
    ensures d < 10
  {
    (c as int) - ('0' as int)
  }

  function DigitChar(d: nat): (c: char)
    requires d < 10
    ensures IsDigit(c) && DigitValue(c) == d
  {
    ('0' as int + d) as char
  }

  /** The number a string of decimal digits denotes (leading zeros allowed). */
  function DigitsValue(ds: string): nat
    requires AllDigits(ds)
  {
    if |ds| == 0 then 0 else DigitsValue(ds[..|ds| - 1]) * 10 + DigitValue(ds[|ds| - 1])
  }

  /** How many decimal digits `s` starts with. */
  function LeadingDigits(s: string): (n: nat)
    ensures n <= |s|
    ensures AllDigits(s[..n])
    ensures n < |s| ==> !IsDigit(s[n])
  {
    if |s| > 0 && IsDigit(s[0]) then
      var n := 1 + LeadingDigits(s[1..]);
      assert forall i :: 1 <= i < n ==> s[..n][i] == s[1..][..n - 1][i - 1];
      n
    else 0
  }

  function Pow10(n: nat): (p: nat)
    ensures p >= 1
  {
    if n == 0 then 1 else 10 * Pow10(n - 1)
  }

  /** `m · 10^e` as an exact real. */
  function Scale(m: nat, e: int): real {
    if e >= 0 then (m * Pow10(e)) as real else (m as real) / (Pow10(-e) as real)
  }

  /** The decimal text JavaScript gives a natural number (`String(n)` for n < 10^21). */
  function NatToString(n: nat): (s: string)
    ensures |s| > 0 && AllDigits(s)
  {
    if n < 10 then [DigitChar(n)] else NatToString(n / 10) + [DigitChar(n % 10)]
  }

  /** Reading back the decimal text of `n` gives `n`. */
  lemma {:induction false} NatToStringValue(n: nat)
    ensures DigitsValue(NatToString(n)) == n
  {
    var s := NatToString(n);
    if n >= 10 {
      NatToStringValue(n / 10);
      assert s[..|s| - 1] == NatToString(n / 10);
    }
  }

  // ---------------------------------------------------------------------
  // parseFloat

  /** A JavaScript number as `parseFloat` can produce it. */
  datatype JsNum = NaN | Finite(value: real) | PosInfinity | NegInfinity {

    /** `this <= b` for a finite `b`, with JavaScript's rule that NaN compares false. */
    predicate AtMost(b: real) {
      match this
      case NaN => false
      case Finite(v) => v <= b
      case PosInfinity => false
      case NegInfinity => true
    }

    /** `this > b` for a finite `b`, with JavaScript's rule that NaN compares false. */
    predicate Exceeds(b: real) {
      match this
      case NaN => false
      case Finite(v) => v > b
      case PosInfinity => true
      case NegInfinity => false
    }

    /** Unary minus. */
    function Negate(): JsNum {
      match this
      case NaN => NaN
      case Finite(v) => Finite(-v)
      case PosInfinity => NegInfinity
      case NegInfinity => PosInfinity
    }
  }

  /** The unsigned decimal literal at the start of a string: its digits and exponent. */
  datatype Decimal = Decimal(intDigits: string, fracDigits: string, exponent: int)

  function DecimalValue(d: Decimal): real
    requires AllDigits(d.intDigits + d.fracDigits)
  {
    Scale(DigitsValue(d.intDigits + d.fracDigits), d.exponent - |d.fracDigits|)
  }

  /**
   * The exponent part `e`/`E`, optional sign, digits at the start of `s`; zero when
   * there is none (an `e` with no digits after it ends the literal instead).
   */
  function ExponentPrefix(s: string): int {
    if |s| > 0 && (s[0] == 'e' || s[0] == 'E') then
      var signed := |s| > 1 && (s[1] == '+' || s[1] == '-');
      var body := if signed then s[2..] else s[1..];
      var n := LeadingDigits(body);
      if n == 0 then 0
      else
        var magnitude: int := DigitsValue(body[..n]);
        if signed && s[1] == '-' then -magnitude else magnitude
    else 0
  }

  /** The digits after a leading `.` of `s`; empty when `s` does not start with `.`. */
  function FractionDigits(s: string): (f: string)
    ensures AllDigits(f)
    ensures |f| > 0 ==> |s| > 0 && s[0] == '.' && |f| < |s|
  {
    if |s| > 0 && s[0] == '.' then s[1..][..LeadingDigits(s[1..])] else ""
  }

  /** What follows the fraction part of `s` (`s` itself when there is no `.`). */
  function AfterFraction(s: string): string {
    if |s| > 0 && s[0] == '.' then s[1..][LeadingDigits(s[1..])..] else s
  }

  /**
   * The longest StrUnsignedDecimalLiteral (without "Infinity") at the start of
   * `s`: digits, optionally `.` and digits, optionally an exponent, with at least
   * one digit before the exponent.
   */
  function DecimalPrefix(s: string): (r: Option<Decimal>)
    ensures r.Some? ==> AllDigits(r.value.intDigits + r.value.fracDigits)
  {
    var n := LeadingDigits(s);
    var fracDigits := FractionDigits(s[n..]);
    if n + |fracDigits| == 0 then None
    else Some(Decimal(s[..n], fracDigits, ExponentPrefix(AfterFraction(s[n..]))))
  }

  /** `parseFloat` after the sign: "Infinity" or the leading decimal literal. */
  function ParseUnsigned(body: string): JsNum {
    if StartsWith(body, "Infinity") then PosInfinity
    else
      match DecimalPrefix(body)
      case None => NaN
      case Some(d) => Finite(DecimalValue(d))
  }

  /** `parseFloat` after the leading white space: an optional sign, then the literal. */
  function ParseSigned(t: string): JsNum {
    if |t| > 0 && t[0] == '-' then ParseUnsigned(t[1..]).Negate()
    else if |t| > 0 && t[0] == '+' then ParseUnsigned(t[1..])
    else ParseUnsigned(t)
  }

  /**
   * JavaScript `parseFloat`: skip leading white space, read an optional sign and
   * then "Infinity" or the longest decimal literal; NaN when there is neither.
   * Trailing text is ignored, so `parseFloat("12abc")` is 12.
   */
  function ParseFloat(s: string): (r: JsNum)
    ensures AllSpace(s) ==> r == NaN
  {
    ParseSigned(TrimStart(s))
  }

  /** A digit run followed by a non-digit has exactly the run as its leading digits. */
  lemma {:induction false} LeadingDigitsOfRun(ds: string, tail: string)
    requires AllDigits(ds)
    requires |tail| > 0 ==> !IsDigit(tail[0])
    ensures LeadingDigits(ds + tail) == |ds|
  {
    if |ds| > 0 {
      assert (ds + tail)[1..] == ds[1..] + tail;
      LeadingDigitsOfRun(ds[1..], tail);
    }
  }

  lemma NoSpaceNoTrim(s: string)
    requires |s| > 0 && !IsSpace(s[0])
    ensures TrimStart(s) == s
  {
  }

  lemma DigitNotSpace(c: char)
    requires IsDigit(c)
    ensures !IsSpace(c)
  {
  }

  lemma DigitStartNotInfinity(s: string)
    requires |s| > 0 && IsDigit(s[0])
    ensures !StartsWith(s, "Infinity")
  {
    if |s| >= 8 {
      assert s[..8][0] == s[0];
    }
  }

  /** Text that starts with a digit is read as its leading decimal literal. */
  lemma UnsignedOfDigitStart(s: string)
    requires |s| > 0 && IsDigit(s[0])
    ensures DecimalPrefix(s).Some?
    ensures ParseUnsigned(s) == Finite(DecimalValue(DecimalPrefix(s).value))
  {
    DigitStartNotInfinity(s);
    assert LeadingDigits(s) > 0;
  }

  /** Text that starts with a digit needs no trimming and carries no sign. */
  lemma ParseOfDigitStart(s: string)
    requires |s| > 0 && IsDigit(s[0])
    ensures ParseFloat(s) == ParseUnsigned(s)
  {
    DigitNotSpace(s[0]);
    NoSpaceNoTrim(s);
  }

  /** The literal at the start of `ds + tail` when no `.` or exponent follows the digits. */
  lemma DecimalPrefixOfRun(ds: string, tail: string)
    requires |ds| > 0 && AllDigits(ds)
    requires |tail| > 0 ==> !IsDigit(tail[0]) && tail[0] != '.' && tail[0] != 'e' && tail[0] != 'E'
    ensures DecimalPrefix(ds + tail) == Some(Decimal(ds, "", 0))
  {
    var s := ds + tail;
    LeadingDigitsOfRun(ds, tail);
    assert s[..|ds|] == ds;
    assert s[|ds|..] == tail;
  }

  /**
   * A run of digits followed by text that cannot continue a number literal parses
   * to the value of the digits.
   */
  lemma DigitRunParses(ds: string, tail: string)
    requires |ds| > 0 && AllDigits(ds)
    requires |tail| > 0 ==> !IsDigit(tail[0]) && tail[0] != '.' && tail[0] != 'e' && tail[0] != 'E'
    ensures ParseFloat(ds + tail) == Finite(DigitsValue(ds) as real)
  {
    var s := ds + tail;
    assert s[0] == ds[0];
    DecimalPrefixOfRun(ds, tail);
    ParseOfDigitStart(s);
    UnsignedOfDigitStart(s);
    assert ds + "" == ds;
  }

  /** The literal at the start of `whole.frac` for digit strings `whole` and `frac`. */
  lemma DecimalPrefixOfFraction(whole: string, frac: string)
    requires |whole| > 0 && AllDigits(whole) && AllDigits(frac)
    ensures DecimalPrefix(whole + "." + frac) == Some(Decimal(whole, frac, 0))
  {
    var s := whole + "." + frac;
    var rest := "." + frac;
    assert s == whole + rest;
    LeadingDigitsOfRun(whole, rest);
    assert s[..|whole|] == whole;
    assert s[|whole|..] == rest;
    assert rest[1..] == frac;
    LeadingDigitsOfRun(frac, "");
    assert frac + "" == frac;
    assert FractionDigits(rest) == frac;
    assert AfterFraction(rest) == "";
  }

  /** Text that starts with a digit parses to the value of its leading literal. */
  lemma ParseOfDecimalStart(s: string, d: Decimal)
    requires |s| > 0 && IsDigit(s[0])
    requires DecimalPrefix(s) == Some(d)
    ensures AllDigits(d.intDigits + d.fracDigits)
    ensures ParseFloat(s) == Finite(DecimalValue(d))
  {
    ParseOfDigitStart(s);
    UnsignedOfDigitStart(s);
  }

  lemma FractionValue(whole: string, frac: string)
    requires AllDigits(whole + frac)
    ensures DecimalValue(Decimal(whole, frac, 0)) ==
              DigitsValue(whole + frac) as real / Pow10(|frac|) as real
  {
  }

  /** `whole.frac` with digit strings on both sides parses to the exact decimal fraction. */
  lemma FractionParses(whole: string, frac: string)
    requires |whole| > 0 && AllDigits(whole) && AllDigits(frac)
    ensures AllDigits(whole + frac)
    ensures ParseFloat(whole + "." + frac) ==
              Finite(DigitsValue(whole + frac) as real / Pow10(|frac|) as real)
  {
    var s := whole + "." + frac;
    assert s[0] == whole[0];
    DecimalPrefixOfFraction(whole, frac);
    ParseOfDecimalStart(s, Decimal(whole, frac, 0));
    FractionValue(whole, frac);
  }

  /** A leading minus sign negates what the rest of the text parses to. */
  lemma NegativeParses(t: string)
    requires |t| > 0 && !IsSpace(t[0]) && t[0] != '-' && t[0] != '+'
    ensures ParseFloat("-" + t) == ParseFloat(t).Negate()
  {
    var s := "-" + t;
    assert s[0] == '-';
    NoSpaceNoTrim(s);
    NoSpaceNoTrim(t);
    assert s[1..] == t;
  }

  /** A string of digits parses to its value. */
  lemma DigitsParse(ds: string)
    requires |ds| > 0 && AllDigits(ds)
    ensures ParseFloat(ds) == Finite(DigitsValue(ds) as real)
  {
    DigitRunParses(ds, "");
    assert ds + "" == ds;
  }

  /** Text whose first character cannot begin a number literal parses to NaN. */
  lemma NoNumericStartIsNaN(s: string)
    requires |s| > 0 && !IsSpace(s[0]) && !IsDigit(s[0])
    requires s[0] != '+' && s[0] != '-' && s[0] != '.' && s[0] != 'I'
    ensures ParseFloat(s) == NaN
  {
    NoSpaceNoTrim(s);
    assert LeadingDigits(s) == 0;
    if |s| >= 8 {
      assert s[..8][0] == s[0];
    }
  }

  /** A leading zero does not change the value of a digit string. */
  lemma {:induction false} LeadingZero(ds: string)
    requires AllDigits(ds)
    ensures AllDigits("0" + ds) && DigitsValue("0" + ds) == DigitsValue(ds)
  {
    if |ds| > 0 {
      var init := ds[..|ds| - 1];
      LeadingZero(init);
      assert ("0" + ds)[..|ds|] == "0" + init;
    }
  }

  /** Reading the decimal text of a natural number gives that number. */
  lemma ParseNatToString(n: nat)
    ensures ParseFloat(NatToString(n)) == Finite(n as real)
  {
    NatToStringValue(n);
    DigitRunParses(NatToString(n), "");
    assert NatToString(n) + "" == NatToString(n);
  }

  /** `parseFloat("12abc")` is 12: trailing text after the numeric prefix is dropped. */
  lemma ParseTrailingText()
    ensures ParseFloat("12abc") == Finite(12.0)
  {
    assert "12abc" == "12" + "abc";
    DigitRunParses("12", "abc");
    assert DigitsValue("12") == 12 by {
      assert "12"[..1] == "1";
    }
  }
}
