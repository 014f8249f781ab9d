/** JavaScript numbers as the source sees them: finite values, NaN and the infinities. */
module Numbers {

  datatype Number = Finite(value: real) | NaN | Infinity(negative: bool) {

    /** `Number.isFinite(x)`. */
    predicate IsFinite() {
      Finite?
    }

    /** JavaScript truthiness of a number: everything but 0 and NaN. */
    predicate IsTruthy() {
      match this
      case Finite(v) => v != 0.0
      case NaN => false
      case Infinity(_) => true
    }
  }

  /** `Math.round(x)`: the nearest integer, halves rounded up. */
  function Round(x: real): (r: int)
    ensures r as real - 0.5 <= x < r as real + 0.5
  {
    (x + 0.5).Floor
  }

  lemma RoundOfWhole(n: int)
    ensures Round(n as real) == n
  {
  }

  function MaxReal(a: real, b: real): (r: real)
    ensures r >= a && r >= b && (r == a || r == b)
  {
    if a >= b then a else b
  }

  function MinReal(a: real, b: real): (r: real)
    ensures r <= a && r <= b && (r == a || r == b)
  {
    if a <= b then a else b
  }

  /** `Math.max(a, b)`: NaN if either is NaN, otherwise the larger. */
  function Max(a: Number, b: Number): Number {
    if a.NaN? || b.NaN? then NaN
    else if a == Infinity(false) || b == Infinity(false) then Infinity(false)
    else if a.Infinity? then b
    else if b.Infinity? then a
    else Finite(MaxReal(a.value, b.value))
  }

  /** `Math.min(a, b)`: NaN if either is NaN, otherwise the smaller. */
  function Min(a: Number, b: Number): Number {
    if a.NaN? || b.NaN? then NaN
    else if a == Infinity(true) || b == Infinity(true) then Infinity(true)
    else if a.Infinity? then b
    else if b.Infinity? then a
    else Finite(MinReal(a.value, b.value))
  }
}
