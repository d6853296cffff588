/** What several modules share. */
module Common {

  datatype Option<+T> = None | Some(value: T)

  type byte = bv8

  function Min(a: int, b: int): int {
    if a < b then a else b
  }

  lemma QuotientBounds(a: int, b: int)
    requires b > 0
    ensures b * (a / b) <= a < b * (a / b) + b
  {
  }
}
