/** Money is held in integer cents. These are the two roundings the services apply to
    quotients (`Number.prototype.toFixed(2)` and `Math.round`) and the way JavaScript
    prints a dollar amount inside a message. */
module Money {
  import Text

  /** What `parseFloat` makes of a request field: a number (in cents) or NaN. */
  datatype Parsed = NaN | Num(cents: int)

  /** `parseFloat(x) || 0`: NaN falls back to 0. */
  function OrZero(p: Parsed): int {
    match p
    case Num(c) => c
    case NaN => 0
  }

  /** `parseFloat((x).toFixed(2))` where x = num / den cents-worth of dollars: the nearest
      whole number of cents, a tie going away from zero. */
  function RoundCents(num: int, den: int): (r: int)
    requires den > 0
    ensures 2 * r * den - den <= 2 * num <= 2 * r * den + den
    ensures num >= 0 ==> r >= 0
  {
    if num >= 0 then (2 * num + den) / (2 * den) else -((2 * -num + den) / (2 * den))
  }

  /** `Math.round(num / den)`: the nearest integer, a tie going up. */
  function MathRound(num: int, den: int): (r: int)
    requires den > 0
    ensures 2 * r * den - den <= 2 * num < 2 * r * den + den
  {
    (2 * num + den) / (2 * den)
  }

  /** `String(cents / 100)`: JavaScript's shortest form of a dollar amount
      (`12`, `12.5`, `12.05`, `-3.2`). */
  function DollarText(cents: int): string {
    if cents < 0 then "-" + UnsignedDollarText(-cents) else UnsignedDollarText(cents)
  }

  function UnsignedDollarText(cents: nat): (s: string)
    ensures |s| > 0 && (Text.IsDigit(s[0]))
  {
    var whole, frac := cents / 100, cents % 100;
    Text.Decimal(whole)
      + (if frac == 0 then ""
         else if frac % 10 == 0 then "." + [Text.DigitChar(frac / 10)]
         else "." + [Text.DigitChar(frac / 10), Text.DigitChar(frac % 10)])
  }

  /** Printing a whole number of dollars gives its plain decimal digits. */
  lemma WholeDollarText(dollars: nat)
    ensures DollarText(dollars * 100) == Text.Decimal(dollars)
  {
    var cents := dollars * 100;
    assert cents / 100 == dollars && cents % 100 == 0;
    assert UnsignedDollarText(cents) == Text.Decimal(dollars) + "";
  }
}
