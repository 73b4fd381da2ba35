/** C++ `double` as a real or NaN: comparison, not rounding, is what the code depends on. */
module Doubles {

  datatype Double = NaN | Num(r: real)

  /** C++ `a != b`, true whenever one side is NaN. */
  predicate Differs(a: Double, b: Double) {
    a.NaN? || b.NaN? || a.r != b.r
  }

  function Abs(x: real): real {
    if x < 0.0 then -x else x
  }

  /** `qFuzzyCompare(a, b)`: false whenever one side is NaN. */
  predicate FuzzyEqual(a: Double, b: Double) {
    && a.Num? && b.Num?
    && Abs(a.r - b.r) * 1000000000000.0 <= (if Abs(a.r) <= Abs(b.r) then Abs(a.r) else Abs(b.r))
  }

  /** `a < b`, false whenever one side is NaN. */
  predicate Less(a: Double, b: real) {
    a.Num? && a.r < b
  }
}
