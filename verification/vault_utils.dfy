/**
 * The pure helpers of the vault client: amount validation, 6-decimal
 * fixed-point conversion between whole tokens and base units ("lamports" in
 * the source's naming), and the operation-prefixed error text.
 */
module VaultUtils {

  import opened Base
  import opened JsText
  import opened VaultTypes

  // ---------------------------------------------------------------------
  // Amount validation

  const AmountRequired := "Amount is required"
  const InvalidFormat := "Invalid amount format"
  const MustBePositive := "Amount must be greater than 0"
  const TooLarge := "Amount is too large"

  /** The largest amount a single deposit or withdrawal may name. */
  const MaxAmount: real := 1000000.0

  datatype Validation = Valid | Invalid(error: string)

  /** The parsed amount is a finite number in (0, MaxAmount]. */
  predicate Acceptable(n: JsNum) {
    n.Finite? && 0.0 < n.value <= MaxAmount
  }

  /**
   * Checks a typed amount, rule by rule, and reports the first rule it breaks:
   * blank text, no numeric prefix, not positive, above the maximum.
   */
  function ValidateAmount(amount: string): (r: Validation)
    ensures r == Invalid(AmountRequired) <==> AllSpace(amount)
    ensures !AllSpace(amount) && ParseFloat(amount).NaN? ==> r == Invalid(InvalidFormat)
    ensures !AllSpace(amount) && ParseFloat(amount).AtMost(0.0) ==> r == Invalid(MustBePositive)
    ensures !AllSpace(amount) && ParseFloat(amount).Exceeds(MaxAmount) ==> r == Invalid(TooLarge)
    ensures r.Valid? <==> Acceptable(ParseFloat(amount))
  {
    TrimEmptyIffAllSpace(amount);
    if amount == "" || Trim(amount) == "" then Invalid(AmountRequired)
    else
      var n := ParseFloat(amount);
      if n.NaN? then Invalid(InvalidFormat)
      else if n.AtMost(0.0) then Invalid(MustBePositive)
      else if n.Exceeds(MaxAmount) then Invalid(TooLarge)
      else Valid
  }

  /** The amount a valid text names: its numeric prefix. */
  function AmountOf(amount: string): (v: real)
    requires ValidateAmount(amount).Valid?
    ensures ParseFloat(amount) == Finite(v)
    ensures 0.0 < v <= MaxAmount
  {
    ParseFloat(amount).value
  }

  lemma ParsesAsNat(n: nat, text: string)
    requires NatToString(n) == text
    ensures ParseFloat(text) == Finite(n as real)
  {
    ParseNatToString(n);
  }

  lemma UpperBoundText()
    ensures NatToString(1000000) == "1000000"
  {
  }

  lemma AboveUpperBoundText()
    ensures NatToString(1000001) == "1000001"
  {
  }

  /** The upper bound is inclusive. */
  lemma ValidateUpperBound()
    ensures ValidateAmount("1000000") == Valid
  {
    UpperBoundText();
    ParsesAsNat(1000000, "1000000");
  }

  /** One more than the upper bound is too large. */
  lemma ValidateAboveUpperBound()
    ensures ValidateAmount("1000001") == Invalid(TooLarge)
  {
    AboveUpperBoundText();
    ParsesAsNat(1000001, "1000001");
  }

  /** Zero is not a positive amount. */
  lemma ValidateZero()
    ensures ValidateAmount("0") == Invalid(MustBePositive)
  {
    ParseNatToString(0);
    assert NatToString(0) == "0";
  }

  /** Blank text is refused before anything is parsed. */
  lemma ValidateBlank()
    ensures ValidateAmount("") == Invalid(AmountRequired)
    ensures ValidateAmount(" \t ") == Invalid(AmountRequired)
  {
  }

  /** Text with no numeric prefix is refused as malformed. */
  lemma ValidateNonNumeric()
    ensures ValidateAmount("abc") == Invalid(InvalidFormat)
  {
    NoNumericStartIsNaN("abc");
  }

  /** A negative amount is refused as not positive. */
  lemma ValidateNegative(text: string)
    requires text == "-1"
    ensures ValidateAmount(text) == Invalid(MustBePositive)
  {
    DigitsParse("1");
    NegativeParses("1");
    assert "-" + "1" == text;
  }

  /** Only the numeric prefix counts: "12abc" is accepted as 12. */
  lemma ValidateNumericPrefix()
    ensures ValidateAmount("12abc") == Valid
    ensures AmountOf("12abc") == 12.0
  {
    ParseTrailingText();
  }

  lemma SmallestUnitDigits(whole: string, frac: string)
    requires whole == "0" && frac == "000001"
    ensures |whole| > 0 && AllDigits(whole) && AllDigits(frac) && |frac| == 6
    ensures DigitsValue(whole + frac) == 1
  {
    LeadingZero("1");
    assert "0" + "1" == "01";
    LeadingZero("01");
    assert "0" + "01" == "001";
    LeadingZero("001");
    assert "0" + "001" == "0001";
    LeadingZero("0001");
    assert "0" + "0001" == "00001";
    LeadingZero("00001");
    assert "0" + "00001" == "000001";
    LeadingZero("000001");
    assert "0" + "000001" == "0000001";
    assert whole + frac == "0000001";
  }

  /** Text with six decimals whose digits read 1 names one millionth. */
  lemma OneMillionthParses(whole: string, frac: string)
    requires |whole| > 0 && AllDigits(whole) && AllDigits(frac) && |frac| == 6
    requires DigitsValue(whole + frac) == 1
    ensures ParseFloat(whole + "." + frac) == Finite(1.0 / 1000000.0)
  {
    FractionParses(whole, frac);
    SixDecimals(|frac|);
  }

  lemma SixDecimals(n: nat)
    requires n == 6
    ensures Pow10(n) as real == 1000000.0
  {
  }

  /** One base unit, 0.000001, is a valid amount and converts to exactly one base unit. */
  lemma ValidateSmallestUnit(text: string)
    requires text == "0.000001"
    ensures ValidateAmount(text) == Valid
    ensures UsdcToLamports(AmountOf(text)) == 1
  {
    var whole, frac := "0", "000001";
    assert text == whole + "." + frac;
    SmallestUnitDigits(whole, frac);
    OneMillionthParses(whole, frac);
  }

  // ---------------------------------------------------------------------
  // Fixed-point conversion

  /** Whole tokens for an amount of base units. */
  function LamportsToUsdc(lamports: int): (usdc: real)
    ensures usdc * LamportsPerUsdc as real == lamports as real
  {
    lamports as real / LamportsPerUsdc as real
  }

  /** Base units for an amount of whole tokens, rounded down: floor(usdc · 10^6). */
  function UsdcToLamports(usdc: real): (lamports: int)
    ensures lamports as real <= usdc * LamportsPerUsdc as real < lamports as real + 1.0
  {
    (usdc * LamportsPerUsdc as real).Floor
  }

  /** More tokens never convert to fewer base units. */
  lemma UsdcToLamportsMonotone(x: real, y: real)
    requires x <= y
    ensures UsdcToLamports(x) <= UsdcToLamports(y)
  {
    var a, b := UsdcToLamports(x), UsdcToLamports(y);
    assert a as real <= x * 1000000.0 <= y * 1000000.0 < b as real + 1.0;
  }

  /** Converting base units to tokens and back loses nothing. */
  lemma LamportsRoundTrip(n: int)
    ensures UsdcToLamports(LamportsToUsdc(n)) == n
  {
    var u := LamportsToUsdc(n);
    assert u * 1000000.0 == n as real;
  }

  /** Converting tokens to base units and back never gives more than was asked for. */
  lemma UsdcRoundTripRoundsDown(x: real)
    ensures LamportsToUsdc(UsdcToLamports(x)) <= x
    ensures x - LamportsToUsdc(UsdcToLamports(x)) < 1.0 / 1000000.0
  {
    var n := UsdcToLamports(x);
    var back := LamportsToUsdc(n);
    assert back * 1000000.0 == n as real;
    assert n as real <= x * 1000000.0 < n as real + 1.0;
  }

  // ---------------------------------------------------------------------
  // Error text

  /**
   * A thrown JavaScript value as the error formatter sees it: `name` and
   * `message` ("" when absent), the ledger's `logs` (empty when absent), and the
   * text its `toString` gives, None when it has no `toString`.
   */
  datatype JsError = JsError(name: string, message: string, logs: seq<string>, text: Option<string>)

  const CheckLogsMessage := "Transaction failed. Check console for logs."
  const UnknownError := "Unknown error occurred"

  /** "`operation` failed: " followed by the most informative detail the error carries. */
  function FormatErrorMessage(err: JsError, operation: string): (r: string)
    ensures StartsWith(r, operation + " failed: ")
    ensures |err.logs| > 0 ==> r == operation + " failed: " + CheckLogsMessage
    ensures |err.logs| == 0 && err.message != "" ==> r == operation + " failed: " + err.message
    ensures |err.logs| == 0 && err.message == "" && err.text.Some? ==>
              r == operation + " failed: " + err.text.value
    ensures |err.logs| == 0 && err.message == "" && err.text.None? ==>
              r == operation + " failed: " + UnknownError
  {
    var detail :=
      if |err.logs| > 0 then CheckLogsMessage
      else if err.message != "" then err.message
      else if err.text.Some? then err.text.value
      else UnknownError;
    var r := operation + " failed: " + detail;
    assert r[..|operation + " failed: "|] == operation + " failed: ";
    r
  }

  /** The operation names the vault controller passes to the formatter. */
  const OperationNames := ["Initialize", "Fix authorities", "Deposit", "Withdraw"]

  /** Failures of two different controller operations never read the same. */
  lemma FailureNamesItsOperation(e1: JsError, e2: JsError, i: int, j: int)
    requires 0 <= i < |OperationNames| && 0 <= j < |OperationNames| && i != j
    ensures FormatErrorMessage(e1, OperationNames[i]) != FormatErrorMessage(e2, OperationNames[j])
  {
    var r1 := FormatErrorMessage(e1, OperationNames[i]);
    var r2 := FormatErrorMessage(e2, OperationNames[j]);
    assert r1[0] == OperationNames[i][0] by {
      assert r1[..|OperationNames[i] + " failed: "|][0] == (OperationNames[i] + " failed: ")[0];
    }
    assert r2[0] == OperationNames[j][0] by {
      assert r2[..|OperationNames[j] + " failed: "|][0] == (OperationNames[j] + " failed: ")[0];
    }
  }
}
