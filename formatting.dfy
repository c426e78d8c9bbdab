/** Number rendering in the component: JavaScript's toFixed(2) and the
    large-number formatter built on it. */
module Formatting {

  const Billion: real := 1000000000.0
  const Million: real := 1000000.0

  /** The string `value.toFixed(2) + suffix`, kept as the number handed to
      toFixed(2) and the text appended to its digits. Hundredths(value) is
      the integer those digits spell for the exact value; the program rounds
      the nearest double, which can differ by one at a decimal tie. */
  datatype Fixed2 = Fixed2(value: real, suffix: string)

  /** The integer n that toFixed(2) prints as n / 100 for an exact value x.
      Number.prototype.toFixed sets the sign aside for a negative argument,
      then takes the n for which n / 100 - |x| is closest to zero, the
      larger one on a tie: the nearest hundredth, ties away from zero. The
      program applies this to the nearest double, not to x itself. */
  function Hundredths(x: real): (n: int)
    ensures -0.5 <= n as real - 100.0 * x <= 0.5
    ensures x >= 0.0 ==> n as real - 100.0 * x > -0.5
    ensures x < 0.0 ==> n as real - 100.0 * x < 0.5
  {
    if x >= 0.0 then (100.0 * x + 0.5).Floor else -((-100.0 * x + 0.5).Floor)
  }

  /** No other hundredth is closer to x than the one toFixed(2) picks. */
  lemma HundredthsIsNearest(x: real, m: int)
    ensures Dist(Hundredths(x) as real, 100.0 * x) <= Dist(m as real, 100.0 * x)
  {
    var n := Hundredths(x);
    if m < n {
      assert m as real <= n as real - 1.0;
    } else if m > n {
      assert m as real >= n as real + 1.0;
    }
  }

  /** A value that already has two decimals is printed exactly. */
  lemma HundredthsExact(k: int)
    ensures Hundredths(k as real / 100.0) == k
  {
    var n := Hundredths(k as real / 100.0);
    assert 100.0 * (k as real / 100.0) == k as real;
    assert -1.0 < n as real - k as real < 1.0;
  }

  function Dist(a: real, b: real): real
  {
    if a >= b then a - b else b - a
  }

  /** formatLargeNumber: "B" with the value in billions from 1e9 upwards, "M"
      with the value in millions from 1e6 up to 1e9, and the value itself
      with no suffix below 1e6. The thresholds are compared with the signed
      value, so negative inputs, however large in magnitude, are never scaled. */
  function FormatLargeNumber(num: real): (r: Fixed2)
    ensures r.suffix == "B" <==> num >= Billion
    ensures r.suffix == "M" <==> Million <= num < Billion
    ensures r.suffix == "" <==> num < Million
    ensures r.suffix == "B" ==> r.value * Billion == num && r.value >= 1.0
    ensures r.suffix == "M" ==> r.value * Million == num && 1.0 <= r.value < 1000.0
    ensures r.suffix == "" ==> r.value == num
  {
    if num >= Billion then Fixed2(num / Billion, "B")
    else if num >= Million then Fixed2(num / Million, "M")
    else Fixed2(num, "")
  }

  /** A negative amount such as -2e9 takes the unscaled branch. */
  lemma NegativeIsUnscaled(num: real)
    requires num < 0.0
    ensures FormatLargeNumber(num) == Fixed2(num, "")
  {
  }

  /** The three renderings "1.50B", "2.50M" and "999.00". */
  lemma FormatLargeNumberExamples()
    ensures FormatLargeNumber(1500000000.0) == Fixed2(1.5, "B") && Hundredths(1.5) == 150
    ensures FormatLargeNumber(2500000.0) == Fixed2(2.5, "M") && Hundredths(2.5) == 250
    ensures FormatLargeNumber(999.0) == Fixed2(999.0, "") && Hundredths(999.0) == 99900
  {
  }
}
