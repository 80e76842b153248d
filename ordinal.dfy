/** The day-of-month suffix the recurring-costs page prints after a due
    day ("1st", "22nd", "13th"), with JavaScript's arithmetic. */
module Ordinal {
  import opened Wrappers

  /** JavaScript's `%` on integers: the remainder takes the sign of the
      dividend (Dafny's `%` never goes negative). */
  function JsRem(a: int, b: int): (r: int)
    requires b > 0
    ensures a >= 0 ==> r == a % b
    ensures -b < r < b && (r < 0 ==> a < 0)
  {
    if a >= 0 then a % b else -((-a) % b)
  }

  /** `["th", "st", "nd", "rd"][i]`: `None` for an index past the array
      (JavaScript's `undefined`); `-0` is index 0. */
  function Suffixes(i: int): Option<string> {
    if i == 0 then Some("th")
    else if i == 1 then Some("st")
    else if i == 2 then Some("nd")
    else if i == 3 then Some("rd")
    else None
  }

  /** `getOrdinal(n)`: `s[(v - 20) % 10] || s[v] || s[0]` with
      `v = n % 100`; every suffix is a non-empty, truthy string. */
  function GetOrdinal(n: int): (suffix: string)
    ensures suffix in ["th", "st", "nd", "rd"]
  {
    var v := JsRem(n, 100);
    match Suffixes(JsRem(v - 20, 10))
    case Some(s) => s
    case None =>
      match Suffixes(v)
      case Some(s) => s
      case None => "th"
  }

  /** The English rule, stated independently: "st", "nd" and "rd" after a
      last digit of 1, 2 and 3, except in 11, 12 and 13 (of each
      hundred); "th" otherwise. */
  function EnglishSuffix(n: nat): string {
    var v := n % 100;
    if v % 10 == 1 && v != 11 then "st"
    else if v % 10 == 2 && v != 12 then "nd"
    else if v % 10 == 3 && v != 13 then "rd"
    else "th"
  }

  /** For every non-negative day number the function follows the English
      rule. */
  lemma GetOrdinalIsEnglish(n: nat)
    ensures GetOrdinal(n) == EnglishSuffix(n)
  {
    var v := n % 100;
    assert JsRem(n, 100) == v;
    var i := JsRem(v - 20, 10);
    if v < 20 {
      assert i == -((20 - v) % 10);
      assert i <= 0 && (i == 0 <==> v == 0 || v == 10);
    } else {
      assert i == (v - 20) % 10 == v % 10;
    }
  }

  /** A negative number always gets "th". */
  lemma NegativeGetsTh(n: int)
    requires n < 0
    ensures GetOrdinal(n) == "th"
  {
  }

  /** The suffix depends on `n % 100` alone. */
  lemma DependsOnLastTwoDigits(n: int, m: int)
    requires JsRem(n, 100) == JsRem(m, 100)
    ensures GetOrdinal(n) == GetOrdinal(m)
  {
  }

  lemma Examples()
    ensures GetOrdinal(1) == "st" && GetOrdinal(21) == "st" && GetOrdinal(31) == "st"
    ensures GetOrdinal(2) == "nd" && GetOrdinal(22) == "nd"
    ensures GetOrdinal(3) == "rd" && GetOrdinal(23) == "rd"
    ensures GetOrdinal(11) == "th" && GetOrdinal(12) == "th" && GetOrdinal(13) == "th" && GetOrdinal(111) == "th"
    ensures GetOrdinal(0) == "th"
  {
  }

  /** Numbers whose last two digits are 4 to 20 get "th". */
  lemma FourToTwentyGetTh(n: nat)
    requires 4 <= n % 100 <= 20
    ensures GetOrdinal(n) == "th"
  {
    GetOrdinalIsEnglish(n);
  }
}
