/** The unit of time of the limiters, and the smaller and larger of two counts or instants. */
module Clock {

  const SECOND: int := 1_000_000_000

  function Min(a: int, b: int): int {
    if a <= b then a else b
  }

  function Max(a: int, b: int): int {
    if a >= b then a else b
  }
}
