/** Scheduler time: a free-running 64-bit counter compared by signed difference. */
module Clock {

  const TWO63: int := 0x8000_0000_0000_0000
  const TWO64: int := 0x1_0000_0000_0000_0000

  type u64 = x: int | 0 <= x < TWO64

  /** The value an unsigned 64-bit variable holds after being assigned x. */
  function Wrap(x: int): u64 {
    x % TWO64
  }

  /** Which arithmetic a scheduler runs on: the program's wrapping counter, or the integers it stands for. */
  datatype Clock = Wrapping | Unbounded

  /** The signed distance from a to b, `(int64_t)(b - a)` on the wrapping clock. */
  function Gap(c: Clock, a: int, b: int): int {
    match c
    case Unbounded => b - a
    case Wrapping =>
      var d := Wrap(b - a);
      if d < TWO63 then d else d - TWO64
  }

  /** usfstl_time_cmp(a, >, b) */
  predicate Later(c: Clock, a: int, b: int) { 0 > Gap(c, a, b) }

  /** usfstl_time_cmp(a, <, b) */
  predicate Earlier(c: Clock, a: int, b: int) { 0 < Gap(c, a, b) }

  /** usfstl_time_cmp(a, >=, b) */
  predicate NotEarlier(c: Clock, a: int, b: int) { 0 >= Gap(c, a, b) }

  lemma WrapOfWrapped(x: int, y: int)
    ensures Wrap(Wrap(x) - Wrap(y)) == Wrap(x - y)
    ensures Wrap(Wrap(x) + y) == Wrap(x + y)
  {
    var p, q := x / TWO64, y / TWO64;
    assert x == p * TWO64 + Wrap(x) && y == q * TWO64 + Wrap(y);
    AddMultiple(Wrap(x) - Wrap(y), p - q);
    AddMultiple(Wrap(x) + y, p);
  }

  lemma AddMultiple(x: int, k: int)
    ensures Wrap(x + k * TWO64) == Wrap(x)
  {
    var q := x / TWO64;
    assert x + k * TWO64 == (q + k) * TWO64 + Wrap(x);
  }

  /** Within 2^63 of each other, two times have the same signed distance on both clocks, except at exactly 2^63 ahead. */
  lemma GapFaithful(x: int, y: int)
    requires -TWO63 <= y - x <= TWO63
    ensures Gap(Wrapping, Wrap(x), Wrap(y)) == if y - x == TWO63 then -TWO63 else y - x
  {
    WrapOfWrapped(y, x);
    if y - x < 0 { AddMultiple(y - x, 1); }
  }

  /**
   * The comparison is right exactly when the second time is not 2^63 ahead of the first:
   * at that distance each time counts as later than the other.
   */
  lemma LaterFaithful(x: int, y: int)
    requires -TWO63 <= y - x <= TWO63
    ensures Later(Wrapping, Wrap(x), Wrap(y)) == Later(Unbounded, x, y) <==> y - x != TWO63
  {
    GapFaithful(x, y);
  }

  lemma LaterIsNotEarlier(c: Clock, a: int, b: int)
    ensures Later(c, a, b) ==> NotEarlier(c, a, b)
  {
  }

  /** Equal counter values within less than 2^64 of each other are equal times. */
  lemma WrapInjective(x: int, y: int)
    requires -TWO64 < x - y < TWO64
    ensures Wrap(x) == Wrap(y) <==> x == y
  {
    if Wrap(x) == Wrap(y) {
      var p, q := x / TWO64, y / TWO64;
      assert x - y == (p - q) * TWO64;
    }
  }

  /** Less than 2^63 apart, all comparisons of the counters are those of the times. */
  lemma ComparisonsFaithful(x: int, y: int)
    requires -TWO63 < y - x < TWO63
    ensures Later(Wrapping, Wrap(x), Wrap(y)) <==> x > y
    ensures Earlier(Wrapping, Wrap(x), Wrap(y)) <==> x < y
    ensures NotEarlier(Wrapping, Wrap(x), Wrap(y)) <==> x >= y
  {
    GapFaithful(x, y);
    hide Wrap;
  }
}
