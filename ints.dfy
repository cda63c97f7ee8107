/** Integer minimum and maximum, as Python's `min` and `max` of two ints. */
module Ints {
  function Min(a: int, b: int): int { if a <= b then a else b }
  function Max(a: int, b: int): int { if a >= b then a else b }
}
