/** Converting between the ticks of a scheduler and the finer time of the one that drives it. */
module Ticks {
  import opened Clock
  import opened Common

  /** A tick's time in the driving scheduler: `ratio * tick + offset`. */
  function Outer(ratio: int, offset: int, tick: int): int {
    ratio * tick + offset
  }

  /** The tick an outer time is taken for, rounding up (DIV_ROUND_UP). */
  function TickUp(ratio: int, offset: int, time: int): int
    requires ratio > 0
  {
    (time - offset + ratio - 1) / ratio
  }

  /** The tick an outer time is taken for, rounding down. */
  function TickDown(ratio: int, offset: int, time: int): int
    requires ratio > 0
  {
    (time - offset) / ratio
  }

  lemma {:induction false} MulAtLeast(r: int, d: int)
    requires r > 0 && d >= 1
    ensures r * d >= r
  {
    if d > 1 {
      MulAtLeast(r, d - 1);
      assert r * d == r * (d - 1) + r;
    }
  }

  lemma MulMonotone(r: int, a: int, b: int)
    requires r > 0
    ensures a <= b <==> r * a <= r * b
    ensures a < b ==> r * a + r <= r * b
  {
    if a < b {
      MulAtLeast(r, b - a);
      assert r * b == r * a + r * (b - a);
    }
    if b < a {
      MulAtLeast(r, a - b);
      assert r * a == r * b + r * (a - b);
    }
  }

  /** Rounding up is the lower adjoint of the request: a time is reached by tick t iff it is no later than t's. */
  lemma UpGalois(ratio: int, offset: int, time: int, tick: int)
    requires ratio > 0
    ensures TickUp(ratio, offset, time) <= tick <==> time <= Outer(ratio, offset, tick)
  {
    var d := time - offset;
    var q := TickUp(ratio, offset, time);
    QuotientBounds(d + ratio - 1, ratio);
    MulMonotone(ratio, q, tick);
    MulMonotone(ratio, tick + 1, q);
    assert ratio * (tick + 1) == ratio * tick + ratio;
  }

  /** Rounding down is the upper adjoint. */
  lemma DownGalois(ratio: int, offset: int, time: int, tick: int)
    requires ratio > 0
    ensures tick <= TickDown(ratio, offset, time) <==> Outer(ratio, offset, tick) <= time
  {
    var q := TickDown(ratio, offset, time);
    QuotientBounds(time - offset, ratio);
    MulMonotone(ratio, tick, q);
    MulMonotone(ratio, q + 1, tick);
    assert ratio * (q + 1) == ratio * q + ratio;
  }

  lemma OuterOrder(ratio: int, offset: int, a: int, b: int)
    requires ratio > 0
    ensures a <= b <==> Outer(ratio, offset, a) <= Outer(ratio, offset, b)
    ensures a < b ==> Outer(ratio, offset, a) + ratio <= Outer(ratio, offset, b)
  {
    MulMonotone(ratio, a, b);
  }

  /** A time granted exactly as requested is the requested tick again, whichever way it is rounded. */
  lemma RoundTrip(ratio: int, offset: int, tick: int)
    requires ratio > 0
    ensures TickUp(ratio, offset, Outer(ratio, offset, tick)) == tick
    ensures TickDown(ratio, offset, Outer(ratio, offset, tick)) == tick
  {
    var up, down := TickUp(ratio, offset, Outer(ratio, offset, tick)), TickDown(ratio, offset, Outer(ratio, offset, tick));
    UpGalois(ratio, offset, Outer(ratio, offset, tick), tick);
    UpGalois(ratio, offset, Outer(ratio, offset, tick), tick - 1);
    DownGalois(ratio, offset, Outer(ratio, offset, tick), tick);
    DownGalois(ratio, offset, Outer(ratio, offset, tick), tick + 1);
    OuterOrder(ratio, offset, tick - 1, tick);
    OuterOrder(ratio, offset, tick, tick + 1);
  }

  /** The rounded-up tick's own time is less than one tick past the time it was rounded from. */
  lemma UpOvershoot(ratio: int, offset: int, time: int)
    requires ratio > 0
    ensures time <= Outer(ratio, offset, TickUp(ratio, offset, time)) < time + ratio
  {
    var q := TickUp(ratio, offset, time);
    UpGalois(ratio, offset, time, q);
    UpGalois(ratio, offset, time, q - 1);
    assert Outer(ratio, offset, q - 1) == Outer(ratio, offset, q) - ratio;
  }

  /** The program's DIV_ROUND_UP(time - offset, ratio), all in unsigned 64-bit arithmetic. */
  function DivRoundUp64(time: int, offset: int, ratio: int): u64
    requires 0 < ratio < 0x1_0000_0000
  {
    var a := Wrap(time - offset);
    SmallQuotient(Wrap(a + ratio - 1), ratio);
    Wrap(a + ratio - 1) / ratio
  }

  lemma SmallQuotient(a: int, b: int)
    requires 0 <= a && 0 < b
    ensures 0 <= a / b <= a
  {
    QuotientBounds(a, b);
    MulMonotone(b, a + 1, a / b);
    MulMonotone(b, a / b, -1);
    MulAtLeast(a + 1, b);
    assert b * (a + 1) == (a + 1) * b;
  }

  lemma SmallerQuotient(t: int, s: int, ratio: int)
    requires ratio > 0 && t <= s - ratio
    ensures t / ratio < s / ratio
  {
    QuotientBounds(t, ratio);
    QuotientBounds(s, ratio);
    MulMonotone(ratio, s / ratio, t / ratio);
  }

  lemma WrapOnce(s: int)
    requires 0 <= s < 2 * TWO64
    ensures Wrap(s) == if s < TWO64 then s else s - TWO64
  {
    if s >= TWO64 { AddMultiple(s, -1); }
  }

  /** It is the mathematical rounding exactly as long as adding ratio - 1 does not overflow. */
  lemma DivRoundUpExact(time: int, offset: int, ratio: int)
    requires 0 < ratio < 0x1_0000_0000 && 0 <= time - offset < TWO64
    ensures DivRoundUp64(time, offset, ratio) == TickUp(ratio, offset, time) <==> time - offset + ratio - 1 < TWO64
  {
    hide Wrap;
    WrapOnce(time - offset);
    WrapOnce(time - offset + ratio - 1);
    if time - offset + ratio - 1 >= TWO64 {
      SmallerQuotient(time - offset + ratio - 1 - TWO64, time - offset + ratio - 1, ratio);
    }
  }
}
