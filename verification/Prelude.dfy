/** Small shared vocabulary: optional values and the arithmetic the source spells `min`, `max`, `sum`. */
module Prelude {
  datatype Option<+T> = None | Some(value: T)

  function Max(a: real, b: real): real { if a >= b then a else b }

  function Min(a: real, b: real): real { if a <= b then a else b }

  function Clamp(x: real, lo: real, hi: real): real { Max(lo, Min(hi, x)) }

  function Abs(x: real): real { if x >= 0.0 then x else -x }

  /** A product kept as one term, so that linear reasoning can carry it around. */
  function Times(a: real, b: real): real { a * b }

  lemma TimesAdds(a: real, b: real, c: real)
    ensures Times(a + b, c) == Times(a, c) + Times(b, c) && Times(c, a + b) == Times(c, a) + Times(c, b)
  {
  }

  lemma ProductNonNegative(a: real, b: real)
    requires a >= 0.0 && b >= 0.0
    ensures Times(a, b) >= 0.0
  {
  }

  function MinInt(a: int, b: int): int { if a <= b then a else b }

  function MaxInt(a: int, b: int): int { if a >= b then a else b }
}
