/** Python's `range`, as far as the loops of NMF use it. */
module Ranges {

  /** The number of passes a `for` loop over `range(n)` makes. */
  function RangeLength(n: int): nat {
    if n > 0 then n else 0
  }
}
