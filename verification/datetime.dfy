/**
 * The two pure helpers of the dashboard clock script (api_service/static/scripts/datetime.js):
 * the English ordinal suffix of a day of the month and the zero padding of hours and minutes.
 */
module DateTime {
  import opened Wrappers
  import Decimal

  /**
   * JavaScript's `%` on integers: the remainder takes the sign of the dividend
   * (it truncates toward zero), unlike Dafny's Euclidean `%`.
   */
  function JsRem(a: int, b: int): (r: int)
    requires b > 0
    ensures a >= 0 ==> 0 <= r < b
    ensures a < 0 ==> -b < r <= 0
    ensures a == b * (if a >= 0 then a / b else -((-a) / b)) + r
  {
    if a >= 0 then a % b else
      assert -a == b * ((-a) / b) + (-a) % b;
      -((-a) % b)
  }

  /** `ordinal_suffix_of(i)`: "st", "nd" or "rd" by the last digit, except for 11, 12 and 13; "th" otherwise. */
  function OrdinalSuffixOf(i: int): (r: string)
    ensures r == "st" <==> JsRem(i, 10) == 1 && JsRem(i, 100) != 11
    ensures r == "nd" <==> JsRem(i, 10) == 2 && JsRem(i, 100) != 12
    ensures r == "rd" <==> JsRem(i, 10) == 3 && JsRem(i, 100) != 13
    ensures r == "th" <==> r != "st" && r != "nd" && r != "rd"
    ensures r in {"st", "nd", "rd", "th"}
  {
    var j := JsRem(i, 10);
    var k := JsRem(i, 100);
    if j == 1 && k != 11 then "st"
    else if j == 2 && k != 12 then "nd"
    else if j == 3 && k != 13 then "rd"
    else "th"
  }

  /**
   * The English rule stated on the digits of a natural number: numbers whose tens
   * digit is 1 take "th"; otherwise the last digit 1, 2, 3 gives "st", "nd", "rd".
   */
  function EnglishOrdinalSuffix(n: nat): string {
    var units := n % 10;
    var tens := (n / 10) % 10;
    if tens == 1 then "th"
    else if units == 1 then "st"
    else if units == 2 then "nd"
    else if units == 3 then "rd"
    else "th"
  }

  /** The script's modular tests agree with the English digit rule on every natural number. */
  lemma OrdinalSuffixIsEnglish(n: nat)
    ensures OrdinalSuffixOf(n) == EnglishOrdinalSuffix(n)
  {
    var units, tens := n % 10, (n / 10) % 10;
    assert n % 100 == tens * 10 + units by {
      assert n == (n / 100) * 100 + n % 100;
      assert n / 10 == (n / 100) * 10 + tens;
      assert n == (n / 10) * 10 + units;
    }
  }

  /** Negative inputs have a non-positive JavaScript remainder, so they always get "th". */
  lemma OrdinalSuffixOfNegative(i: int)
    requires i < 0
    ensures OrdinalSuffixOf(i) == "th"
  {
  }

  /** The days of a month that the clock can show get the suffixes a reader expects. */
  lemma OrdinalSuffixOfDaysOfMonth(d: int)
    requires 1 <= d <= 31
    ensures OrdinalSuffixOf(d) == (if d == 1 || d == 21 || d == 31 then "st"
                                   else if d == 2 || d == 22 then "nd"
                                   else if d == 3 || d == 23 then "rd"
                                   else "th")
  {
    OrdinalSuffixIsEnglish(d);
  }

  /** A JavaScript value as the script handles it: a number, or a string built by concatenation. */
  datatype JsValue = Number(n: int) | Str(s: string)

  /** JavaScript's conversion of a value to text, as `h + ":" + m` performs it. */
  function Render(v: JsValue): string {
    match v
    case Number(n) => Decimal.IntToString(n)
    case Str(s) => s
  }

  /** `checkTime(i)`: a value below ten becomes the string "0" followed by it; any other is returned unchanged. */
  function CheckTime(i: int): (r: JsValue)
    ensures i < 10 ==> r.Str? && r.s == "0" + Decimal.IntToString(i)
    ensures i >= 10 ==> r == Number(i)
  {
    if i < 10 then Str("0" + Decimal.IntToString(i)) else Number(i)
  }

  /** An hour or minute from 0 to 59 is shown as exactly two digits that read back as its value. */
  lemma CheckTimeTwoDigits(i: int)
    requires 0 <= i <= 59
    ensures |Render(CheckTime(i))| == 2
    ensures Decimal.ParseNat(Render(CheckTime(i))) == Some(i)
  {
    Decimal.NatToStringLength(i);
    Decimal.DigitsValueOfNatToString(i);
    if i < 10 {
      Decimal.LeadingZeroKeepsValue(Decimal.NatToString(i));
    }
  }
}
