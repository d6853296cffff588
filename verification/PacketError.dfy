/** Packet error rates, over exact reals: binomial majority tails and the union bound of per.c. */
module PacketError {
  import Retry

  // ---------- binomial coefficients ----------

  function Choose(n: nat, k: nat): nat {
    if k == 0 then 1 else if n == 0 then 0 else Choose(n - 1, k - 1) + Choose(n - 1, k)
  }

  lemma {:induction false} ChooseAbove(n: nat, k: nat)
    requires k > n
    ensures Choose(n, k) == 0
  {
    if n > 0 {
      ChooseAbove(n - 1, k - 1);
      ChooseAbove(n - 1, k);
    }
  }

  lemma {:induction false} ChooseFull(n: nat)
    ensures Choose(n, n) == 1
  {
    if n > 0 {
      ChooseFull(n - 1);
      ChooseAbove(n - 1, n);
    }
  }

  lemma {:induction false} ChooseSymmetric(n: nat, k: nat)
    requires k <= n
    ensures Choose(n, k) == Choose(n, n - k)
  {
    if k == 0 {
      ChooseFull(n);
    } else if k == n {
      ChooseFull(n);
    } else {
      ChooseSymmetric(n - 1, k - 1);
      ChooseSymmetric(n - 1, k);
    }
  }

  lemma AbsorbStep(n: int, k: int, a: int, b: int, u: int, v: int)
    requires a == u + v && (k + 1) * b == n * v && k * a == n * u
    ensures (k + 1) * (a + b) == (n + 1) * a
  {
    assert (k + 1) * (a + b) == k * a + a + (k + 1) * b;
    assert n * (u + v) == n * u + n * v;
  }

  /** (k + 1) C(n + 1, k + 1) = (n + 1) C(n, k) */
  lemma {:induction false} ChooseAbsorb(n: nat, k: nat)
    ensures (k + 1) * Choose(n + 1, k + 1) == (n + 1) * Choose(n, k)
    decreases n
  {
    if n == 0 {
      if k == 0 { assert Choose(1, 1) == 1; } else { ChooseAbove(1, k + 1); ChooseAbove(0, k); }
    } else {
      var a, b, v := Choose(n, k), Choose(n, k + 1), Choose(n - 1, k);
      var u := if k == 0 then 0 else Choose(n - 1, k - 1);
      assert Choose(n + 1, k + 1) == a + b && a == u + v;
      ChooseAbsorb(n - 1, k);
      if k > 0 { ChooseAbsorb(n - 1, k - 1); }
      hide Choose;
      AbsorbStep(n, k, a, b, u, v);
    }
  }

  /** The factor of the product's i-th turn. */
  function Scale(c: real, m: int, i: int): real
    requires i > 0
  {
    c * (m as real / i as real)
  }

  lemma ScaleExact(c: int, d: int, m: int, i: int)
    requires i > 0 && i * d == m * c
    ensures Scale(c as real, m, i) == d as real
  {
    ProductAsReal(i, d);
    ProductAsReal(m, c);
    DivideOut(c as real, m as real, i as real, d as real);
  }

  lemma ProductAsReal(a: int, b: int)
    ensures (a * b) as real == a as real * b as real
  {
  }

  lemma DivideOut(c: real, m: real, i: real, d: real)
    requires i > 0.0 && i * d == m * c
    ensures c * (m / i) == d
  {
    assert i * (m / i) == m;
    assert i * (c * (m / i)) == c * (i * (m / i));
    assert i * (c * (m / i)) == i * d;
    assert i * (c * (m / i) - d) == 0.0;
  }

  /** One turn of the product: C(m + 1, i) from C(m, i - 1). */
  lemma ChooseTurn(m: nat, i: nat)
    requires i >= 1
    ensures Scale(Choose(m, i - 1) as real, m + 1, i) == Choose(m + 1, i) as real
  {
    ChooseAbsorb(m, i - 1);
    hide Choose, Scale;
    ScaleExact(Choose(m, i - 1), Choose(m + 1, i), m + 1, i);
  }

  /** The program's product loop. It returns 0 for k = 0, where the coefficient is 1. */
  method NChooseK(n: nat, k: nat) returns (c: real)
    ensures c == if k == 0 then 0.0 else Choose(n, k) as real
  {
    c := 1.0;
    if n < k || k == 0 {
      if k > 0 { ChooseAbove(n, k); }
      return 0.0;
    }
    var kk := k;
    ChooseSymmetric(n, k);
    if kk > n - kk {
      kk := n - kk;
    }
    var i := 1;
    while i <= kk
      invariant 1 <= i <= kk + 1
      invariant c == Choose(n - kk + i - 1, i - 1) as real
    {
      ChooseTurn(n - kk + i - 1, i);
      c := Scale(c, n - (kk - i), i);
      i := i + 1;
    }
  }

  // ---------- tails ----------

  function Pow(x: real, n: nat): real {
    if n == 0 then 1.0 else x * Pow(x, n - 1)
  }

  function Share(p: real, a: real): real {
    p * a
  }

  /** a with probability p, else b. */
  function Mix(p: real, a: real, b: real): real {
    Share(p, a) + Share(1.0 - p, b)
  }

  lemma ShareLinear(p: real, a: real, b: real)
    ensures Share(p, a) - Share(p, b) == Share(p, a - b)
    ensures Share(p, a) + Share(1.0 - p, a) == a
  {
  }

  lemma ShareSign(p: real, a: real)
    requires p >= 0.0 && a >= 0.0
    ensures Share(p, a) >= 0.0
  {
  }

  function Product(c: real, x: real, y: real): real {
    c * x * y
  }

  /** The probability of exactly j bit errors in n, as the program's term computes it. */
  function Term(n: nat, j: nat, p: real): real
    requires j <= n
  {
    Product(Choose(n, j) as real, Pow(p, j), Pow(1.0 - p, n - j))
  }

  /** The program's sum of the terms from k up. */
  function TermSum(n: nat, k: nat, p: real): real
    decreases n + 1 - k
  {
    if k > n then 0.0 else Term(n, k, p) + TermSum(n, k + 1, p)
  }

  /** The probability of at least k errors in n, by conditioning on the last bit. */
  function Tail(n: nat, k: nat, p: real): real {
    if k == 0 then 1.0 else if n == 0 then 0.0 else Mix(p, Tail(n - 1, k - 1, p), Tail(n - 1, k, p))
  }

  lemma {:induction false} TailAbove(n: nat, k: nat, p: real)
    requires k > n
    ensures Tail(n, k, p) == 0.0
  {
    if n > 0 {
      TailAbove(n - 1, k - 1, p);
      TailAbove(n - 1, k, p);
    }
  }

  /** A term with more errors than bits is 0. */
  function Exactly(n: nat, j: nat, p: real): real {
    if j > n then 0.0 else Term(n, j, p)
  }

  lemma Distribute(a: real, b: real, c: real, p: real, q: real, x: real, y: real, px: real, qy: real)
    requires c == a + b && px == p * x && qy == q * y
    ensures Product(c, px, qy) == Share(p, Product(a, x, qy)) + Share(q, Product(b, px, y))
  {
    assert c * px * qy == a * px * qy + b * px * qy;
    assert a * px * qy == p * (a * x * qy);
    assert b * px * qy == q * (b * px * y);
  }

  lemma Swap(c: real, x: real, y: real, p: real, q: real, px: real, qy: real)
    requires px == p * x && qy == q * y
    ensures Share(p, Product(c, x, qy)) == Share(q, Product(c, px, y))
  {
    assert c * x * qy == q * (c * x * y);
    assert c * px * y == p * (c * x * y);
  }

  lemma ZeroProduct(p: real, x: real, y: real)
    ensures Product(0.0, x, y) == 0.0 && Share(p, 0.0) == 0.0
  {
  }

  lemma PowStep(x: real, n: nat)
    ensures Pow(x, n + 1) == x * Pow(x, n)
  {
  }

  /** Pascal's rule for the terms. */
  lemma TermPascal(n: nat, j: nat, p: real)
    requires 1 <= j <= n
    ensures Term(n, j, p) == Mix(p, Exactly(n - 1, j - 1, p), Exactly(n - 1, j, p))
  {
    var q, a, b := 1.0 - p, Choose(n - 1, j - 1), Choose(n - 1, j);
    assert Choose(n, j) == a + b;
    PowStep(p, j - 1);
    var x, px := Pow(p, j - 1), Pow(p, j);
    if j < n {
      PowStep(q, n - j - 1);
      assert (n - 1) - (j - 1) == n - j && (n - 1) - j == n - j - 1;
      hide Choose, Pow, Product, Share;
      Distribute(a as real, b as real, (a + b) as real, p, q, x, Pow(q, n - j - 1), px, Pow(q, n - j));
    } else {
      ChooseAbove(n - 1, j);
      assert Pow(q, 0) == 1.0 && (n - 1) - (j - 1) == 0;
      hide Choose, Pow, Product, Share;
      Distribute(a as real, 0.0, a as real, p, q, x, 0.0, px, 0.0);
      OneFactor(a as real, p, x, px);
      ZeroProduct(q, px, 0.0);
    }
  }

  lemma OneFactor(a: real, p: real, x: real, px: real)
    requires px == p * x
    ensures Product(a, px, 1.0) == Share(p, Product(a, x, 1.0))
  {
  }

  lemma MixDifference(p: real, s: real, t0: real, t1: real)
    ensures Mix(p, s, t0) - Mix(p, t0, t1) == Mix(p, s - t0, t0 - t1)
  {
    ShareLinear(p, s, t0);
    ShareLinear(1.0 - p, t0, t1);
  }

  lemma NoErrors(n: nat, p: real)
    requires n >= 1
    ensures Exactly(n, 0, p) == Mix(p, 0.0, Exactly(n - 1, 0, p))
  {
    assert Choose(n, 0) == 1 && Choose(n - 1, 0) == 1 && Pow(p, 0) == 1.0;
    PowStep(1.0 - p, n - 1);
  }

  /** The tails' differences are the terms. */
  lemma {:induction false} TailDifference(n: nat, k: nat, p: real)
    ensures Tail(n, k, p) - Tail(n, k + 1, p) == Exactly(n, k, p)
    decreases n
  {
    if k > n {
      TailAbove(n, k, p);
      TailAbove(n, k + 1, p);
    } else if n == 0 {
      assert Choose(0, 0) == 1 && Pow(p, 0) == 1.0 && Pow(1.0 - p, 0) == 1.0;
    } else {
      TailDifference(n - 1, k, p);
      hide Term, Share;
      if k == 0 {
        NoErrors(n, p);
        assert Mix(p, 1.0, 1.0) == 1.0 by { ShareLinear(p, 1.0, 1.0); }
        hide Exactly;
        MixDifference(p, 1.0, 1.0, Tail(n - 1, 1, p));
      } else {
        TailDifference(n - 1, k - 1, p);
        TermPascal(n, k, p);
        hide Mix;
        MixDifference(p, Tail(n - 1, k - 1, p), Tail(n - 1, k, p), Tail(n - 1, k + 1, p));
      }
    }
  }

  /** The program's sum of binomial terms is the tail. */
  lemma {:induction false} TermSumIsTail(n: nat, k: nat, p: real)
    requires k <= n + 1
    ensures TermSum(n, k, p) == Tail(n, k, p)
    decreases n + 1 - k
  {
    hide Tail, Term;
    if k == n + 1 {
      TailAbove(n, k, p);
    } else {
      TermSumIsTail(n, k + 1, p);
      TailDifference(n, k, p);
    }
  }

  lemma MixBounds(p: real, a: real, b: real)
    requires 0.0 <= p <= 1.0 && b <= a
    ensures b <= Mix(p, a, b) <= a
  {
    ShareLinear(p, a, b);
    ShareLinear(p, b, b);
    ShareLinear(1.0 - p, a, b);
    ShareLinear(p, a, a);
    ShareSign(p, a - b);
    ShareSign(1.0 - p, a - b);
    hide Share;
  }

  lemma {:induction false} TailBounds(n: nat, k: nat, p: real)
    requires 0.0 <= p <= 1.0
    ensures 0.0 <= Tail(n, k + 1, p) <= Tail(n, k, p) <= 1.0
    decreases n
  {
    hide Mix;
    if n > 0 {
      TailBounds(n - 1, k, p);
      MixBounds(p, Tail(n - 1, k, p), Tail(n - 1, k + 1, p));
      if k > 0 {
        TailBounds(n - 1, k - 1, p);
        MixBounds(p, Tail(n - 1, k - 1, p), Tail(n - 1, k, p));
      }
    }
  }

  lemma MixMonotone(p: real, q: real, a: real, b: real, c: real, d: real)
    requires 0.0 <= p <= q <= 1.0 && a <= c && b <= d <= c
    ensures Mix(p, a, b) <= Mix(q, c, d)
  {
    ShareSign(p, c - a);
    ShareSign(1.0 - p, d - b);
    ShareSign(q - p, c - d);
    assert Mix(q, c, d) - Mix(p, a, b) == Share(q - p, c - d) + Share(p, c - a) + Share(1.0 - p, d - b) by {
      MixExpand(p, q, a, b, c, d);
    }
  }

  lemma MixExpand(p: real, q: real, a: real, b: real, c: real, d: real)
    ensures Mix(q, c, d) - Mix(p, a, b) == Share(q - p, c - d) + Share(p, c - a) + Share(1.0 - p, d - b)
  {
  }

  /** More likely bit errors make every tail more likely. */
  lemma {:induction false} TailMonotone(n: nat, k: nat, p: real, q: real)
    requires 0.0 <= p <= q <= 1.0
    ensures Tail(n, k, p) <= Tail(n, k, q)
    decreases n
  {
    hide Mix;
    if n > 0 && k > 0 {
      TailMonotone(n - 1, k - 1, p, q);
      TailMonotone(n - 1, k, p, q);
      TailBounds(n - 1, k - 1, q);
      MixMonotone(p, q, Tail(n - 1, k - 1, p), Tail(n - 1, k, p), Tail(n - 1, k - 1, q), Tail(n - 1, k, q));
    }
  }

  // ---------- the probability of choosing a path at distance d ----------

  /** p_d: a majority of the d bits wrong, and half of the tie. */
  function PathError(d: nat, p: real): real {
    if d % 2 == 1 then TermSum(d, (d + 1) / 2, p)
    else TermSum(d, d / 2 + 1, p) + 0.5 * Term(d, d / 2, p)
  }

  /** Among 2m - 1 bits, m - 1 errors and one more is as likely as m errors and no more. */
  lemma TieHalves(m: nat, p: real)
    requires m >= 1
    ensures Share(p, Term(2 * m - 1, m - 1, p)) == Share(1.0 - p, Term(2 * m - 1, m, p))
  {
    var n := 2 * m - 1;
    ChooseSymmetric(n, m);
    PowStep(p, m - 1);
    PowStep(1.0 - p, m - 1);
    hide Choose, Pow, Product, Share;
    assert n - m == m - 1 && n - (m - 1) == m;
    Swap(Choose(n, m) as real, Pow(p, m - 1), Pow(1.0 - p, m - 1), p, 1.0 - p, Pow(p, m), Pow(1.0 - p, m));
  }

  lemma TieArithmetic(p: real, s: real, s1: real, a: real, t: real)
    requires s - s1 == t && Share(p, a) == Share(1.0 - p, t)
    ensures Mix(p, s, s1) + 0.5 * Mix(p, a, t) == s
  {
    ShareLinear(1.0 - p, s, s1);
    ShareLinear(p, s, s);
    hide Share;
  }

  /** The half-weighted tie makes each even distance exactly as bad as the odd one below it. */
  lemma EvenIsOddBelow(d: nat, p: real)
    requires d % 2 == 0 && d >= 2
    ensures PathError(d, p) == PathError(d - 1, p)
  {
    var m, n := d / 2, d - 1;
    assert n == 2 * m - 1 && (n + 1) / 2 == m;
    TermSumIsTail(d, m + 1, p);
    TermSumIsTail(n, m, p);
    TailDifference(n, m, p);
    TermPascal(d, m, p);
    TieHalves(m, p);
    hide Term, TermSum, Mix, Share;
    assert Tail(d, m + 1, p) == Mix(p, Tail(n, m, p), Tail(n, m + 1, p));
    hide Tail;
    TieArithmetic(p, Tail(n, m, p), Tail(n, m + 1, p), Term(n, m - 1, p), Term(n, m, p));
  }

  /** So p_d is always the majority tail of an odd number of bits. */
  lemma PathErrorIsTail(d: nat, p: real)
    requires d >= 1
    ensures PathError(d, p) == if d % 2 == 1 then Tail(d, (d + 1) / 2, p) else Tail(d - 1, d / 2, p)
  {
    if d % 2 == 1 {
      TermSumIsTail(d, (d + 1) / 2, p);
    } else {
      EvenIsOddBelow(d, p);
      TermSumIsTail(d - 1, d / 2, p);
    }
  }

  lemma PathErrorBounds(d: nat, p: real)
    requires d >= 1 && 0.0 <= p <= 1.0
    ensures 0.0 <= PathError(d, p) <= 1.0
  {
    PathErrorIsTail(d, p);
    if d % 2 == 1 { TailBounds(d, (d + 1) / 2, p); } else { TailBounds(d - 1, d / 2, p); }
  }

  lemma PathErrorMonotone(d: nat, p: real, q: real)
    requires d >= 1 && 0.0 <= p <= q <= 1.0
    ensures PathError(d, p) <= PathError(d, q)
  {
    PathErrorIsTail(d, p);
    PathErrorIsTail(d, q);
    if d % 2 == 1 { TailMonotone(d, (d + 1) / 2, p, q); } else { TailMonotone(d - 1, d / 2, p, q); }
  }

  // ---------- the union bound and the packet error rate ----------

  datatype Fec = Rate12 | Rate23 | Rate34

  /** Free distance of each code. */
  function FreeDistance(fec: Fec): (d: nat)
    ensures d >= 1
  {
    match fec
    case Rate12 => 10
    case Rate23 => 6
    case Rate34 => 5
  }

  /** Number of paths at each of the first ten distances. */
  function Weights(fec: Fec): (w: seq<real>)
    ensures |w| == 10 && forall i :: 0 <= i < 10 ==> w[i] >= 0.0
  {
    match fec
    case Rate12 => [11.0, 0.0, 38.0, 0.0, 193.0, 0.0, 1331.0, 0.0, 7275.0, 0.0]
    case Rate23 => [1.0, 16.0, 48.0, 158.0, 642.0, 2435.0, 9174.0, 34701.0, 131533.0, 499312.0]
    case Rate34 => [8.0, 31.0, 160.0, 892.0, 4512.0, 23297.0, 120976.0, 624304.0, 3229885.0, 16721329.0]
  }

  function Dot(v: seq<real>, w: seq<real>): real
    requires |v| == |w|
  {
    if v == [] then 0.0 else Dot(v[..|v| - 1], w[..|w| - 1]) + v[|v| - 1] * w[|w| - 1]
  }

  function PathErrors(d: nat, p: real, n: nat): (r: seq<real>)
    ensures |r| == n && forall i :: 0 <= i < n ==> r[i] == PathError(d + i, p)
  {
    seq(n, i requires 0 <= i < n => PathError(d + i, p))
  }

  /** The probability that a bit stays uncorrected, by the union bound capped at 1. */
  function Uncorrected(ber: real, fec: Fec): real {
    var u := Dot(PathErrors(FreeDistance(fec), ber, 10), Weights(fec));
    if u > 1.0 then 1.0 else u
  }

  function PacketErrorRate(ber: real, fec: Fec, len: nat): real {
    1.0 - Pow(1.0 - Uncorrected(ber, fec), 8 * len)
  }

  method DotProduct(v: array<real>, w: seq<real>) returns (val: real)
    requires v.Length == |w|
    ensures val == Dot(v[..], w)
  {
    val := 0.0;
    var i := 0;
    while i < v.Length
      invariant i <= v.Length && val == Dot(v[..i], w[..i])
    {
      assert v[..i + 1][..i] == v[..i] && w[..i + 1][..i] == w[..i];
      val := val + v[i] * w[i];
      i := i + 1;
    }
    assert v[..i] == v[..] && w[..i] == w;
  }

  /** The program's sum over k from first to d. */
  method SumTerms(d: nat, first: nat, rho: real) returns (sum: real)
    requires 1 <= first <= d + 1
    ensures sum == TermSum(d, first, rho)
  {
    hide Term;
    sum := 0.0;
    var k := first;
    while k <= d
      invariant first <= k <= d + 1
      invariant sum + TermSum(d, k, rho) == TermSum(d, first, rho)
    {
      var t := OneTerm(d, k, rho);
      sum := sum + t;
      k := k + 1;
    }
  }

  method OneTerm(d: nat, k: nat, rho: real) returns (t: real)
    requires 1 <= k <= d
    ensures t == Term(d, k, rho)
  {
    var c := NChooseK(d, k);
    t := Product(c, Pow(rho, k), Pow(1.0 - rho, d - k));
  }

  /** per */
  method Per(ber: real, fec: Fec, frameLen: nat) returns (rate: real)
    ensures rate == PacketErrorRate(ber, fec, frameLen)
  {
    hide Term, TermSum, Dot, Pow;
    var pd := new real[10];
    var i := 0;
    while i < 10
      invariant 0 <= i <= 10
      invariant forall j :: 0 <= j < i ==> pd[j] == PathError(FreeDistance(fec) + j, ber)
    {
      var d := FreeDistance(fec) + i;
      var sum;
      if d % 2 == 1 {
        sum := SumTerms(d, (d + 1) / 2, ber);
      } else {
        sum := SumTerms(d, d / 2 + 1, ber);
        var tie := OneTerm(d, d / 2, ber);
        sum := sum + 0.5 * tie;
      }
      pd[i] := sum;
      i := i + 1;
    }
    assert pd[..] == PathErrors(FreeDistance(fec), ber, 10);
    var uncorrected := DotProduct(pd, Weights(fec));
    if uncorrected > 1.0 {
      uncorrected := 1.0;
    }
    rate := 1.0 - Pow(1.0 - uncorrected, 8 * frameLen);
  }

  lemma WeightSign(v: real, u: real, w: real)
    requires 0.0 <= v <= u && w >= 0.0
    ensures 0.0 <= v * w <= u * w
  {
  }

  lemma {:induction false} DotMonotone(v: seq<real>, u: seq<real>, w: seq<real>)
    requires |v| == |u| == |w| && forall i :: 0 <= i < |v| ==> 0.0 <= v[i] <= u[i] && w[i] >= 0.0
    ensures 0.0 <= Dot(v, w) <= Dot(u, w)
  {
    if v != [] {
      var n := |v| - 1;
      DotMonotone(v[..n], u[..n], w[..n]);
      WeightSign(v[n], u[n], w[n]);
    }
  }

  lemma UncorrectedMonotone(fec: Fec, p: real, q: real)
    requires 0.0 <= p <= q <= 1.0
    ensures 0.0 <= Uncorrected(p, fec) <= Uncorrected(q, fec) <= 1.0
  {
    var d := FreeDistance(fec);
    var v, u := PathErrors(d, p, 10), PathErrors(d, q, 10);
    forall i | 0 <= i < 10 ensures 0.0 <= v[i] <= u[i] {
      PathErrorBounds(d + i, p);
      PathErrorMonotone(d + i, p, q);
    }
    DotMonotone(v, u, Weights(fec));
    hide Dot, PathError;
  }

  lemma ShareUnit(a: real)
    ensures Share(1.0, a) == a
  {
  }

  lemma ShareMonotone(x: real, y: real, a: real, b: real)
    requires 0.0 <= x <= y && 0.0 <= a <= b
    ensures 0.0 <= Share(x, a) <= Share(y, b)
  {
    ShareSign(x, a);
    ShareSign(x, b - a);
    ShareSign(y - x, b);
    assert Share(y, b) - Share(x, a) == Share(x, b - a) + Share(y - x, b);
  }

  lemma {:induction false} PowMonotone(x: real, y: real, n: nat)
    requires 0.0 <= x <= y <= 1.0
    ensures 0.0 <= Pow(x, n) <= Pow(y, n) <= 1.0
  {
    if n > 0 {
      PowMonotone(x, y, n - 1);
      var a, b := Pow(x, n - 1), Pow(y, n - 1);
      assert Pow(x, n) == Share(x, a) && Pow(y, n) == Share(y, b);
      hide Pow, Share;
      ShareMonotone(x, y, a, b);
      ShareMonotone(y, 1.0, b, 1.0);
      ShareUnit(1.0);
    }
  }

  lemma {:induction false} PowFalls(x: real, m: nat, n: nat)
    requires 0.0 <= x <= 1.0 && m <= n
    ensures Pow(x, n) <= Pow(x, m)
    decreases n
  {
    if m < n {
      PowFalls(x, m, n - 1);
      PowMonotone(x, x, n - 1);
      assert Pow(x, n) == Share(x, Pow(x, n - 1));
      hide Pow, Share;
      ShareMonotone(x, 1.0, Pow(x, n - 1), Pow(x, n - 1));
      ShareUnit(Pow(x, n - 1));
    }
  }

  /** The packet error rate is a probability, and grows with the bit error rate and with the frame. */
  lemma PerIsMonotone(fec: Fec, p: real, q: real, len: nat, longer: nat)
    requires 0.0 <= p <= q <= 1.0 && len <= longer
    ensures 0.0 <= PacketErrorRate(p, fec, len) <= PacketErrorRate(q, fec, longer) <= 1.0
  {
    UncorrectedMonotone(fec, p, q);
    var x, y := 1.0 - Uncorrected(p, fec), 1.0 - Uncorrected(q, fec);
    hide Uncorrected, Pow;
    PowMonotone(y, x, 8 * len);
    PowMonotone(y, y, 8 * longer);
    PowFalls(y, 8 * len, 8 * longer);
  }

  // ---------- what the packet error rate is, bit by bit ----------

  lemma {:induction false} PowAdd(x: real, m: nat, n: nat)
    ensures Pow(x, m + n) == Share(Pow(x, m), Pow(x, n))
  {
    if m > 0 {
      PowAdd(x, m - 1, n);
      assert Pow(x, m + n) == x * Pow(x, m - 1 + n);
      assert x * (Pow(x, m - 1) * Pow(x, n)) == (x * Pow(x, m - 1)) * Pow(x, n);
    }
  }

  lemma {:induction false} PowEight(x: real)
    ensures Pow(x, 8) == x * x * x * x * x * x * x * x
  {
    var y, z := x * x, (x * x) * (x * x);
    assert Pow(x, 1) == x * Pow(x, 0);
    PowAdd(x, 1, 1);
    PowAdd(x, 2, 2);
    PowAdd(x, 4, 4);
    assert z * z == x * x * x * x * x * x * x * x;
  }

  lemma PowNext(x: real, m: nat, n: nat)
    ensures Pow(x, 0) == 1.0 && Pow(x, m + n) == Share(Pow(x, m), Pow(x, n))
  {
    PowAdd(x, m, n);
  }

  lemma ShareIs(a: real, b: real)
    ensures Share(a, b) == a * b
  {
  }

  /** An empty frame is never lost, and a frame survives when each of its bytes does. */
  lemma SurvivesByByte(ber: real, fec: Fec, n: nat)
    ensures PacketErrorRate(ber, fec, 0) == 0.0
    ensures 1.0 - PacketErrorRate(ber, fec, n + 1) == (1.0 - PacketErrorRate(ber, fec, n)) * (1.0 - PacketErrorRate(ber, fec, 1))
  {
    hide Pow, Uncorrected, Share;
    var x := 1.0 - Uncorrected(ber, fec);
    PowNext(x, 8 * n, 8);
    ShareIs(Pow(x, 8 * n), Pow(x, 8));
  }

  /**
   * A byte survives when each of its eight bits does. A bit survives but for the sum over the first ten
   * distances, weighted by the number of paths, of the probability that most of the bits are wrong; an
   * even distance counts like the odd one below it.
   */
  lemma SurvivesByBit(ber: real, fec: Fec)
    ensures var u := UnionBound(ber, fec);
      var s := if u > 1.0 then 0.0 else 1.0 - u;
      1.0 - PacketErrorRate(ber, fec, 1) == s * s * s * s * s * s * s * s
  {
    UnionBoundIs(ber, fec);
    PowEight(1.0 - Uncorrected(ber, fec));
    hide Pow, Dot, UnionBound, PathErrors;
  }

  /** The weighted sum of the majority tails, by code. */
  function UnionBound(p: real, fec: Fec): real {
    match fec
    case Rate12 =>
      11.0 * Tail(9, 5, p) + 38.0 * Tail(11, 6, p) + 193.0 * Tail(13, 7, p) + 1331.0 * Tail(15, 8, p) + 7275.0 * Tail(17, 9, p)
    case Rate23 =>
      1.0 * Tail(5, 3, p) + (16.0 + 48.0) * Tail(7, 4, p) + (158.0 + 642.0) * Tail(9, 5, p) + (2435.0 + 9174.0) * Tail(11, 6, p)
      + (34701.0 + 131533.0) * Tail(13, 7, p) + 499312.0 * Tail(15, 8, p)
    case Rate34 =>
      (8.0 + 31.0) * Tail(5, 3, p) + (160.0 + 892.0) * Tail(7, 4, p) + (4512.0 + 23297.0) * Tail(9, 5, p)
      + (120976.0 + 624304.0) * Tail(11, 6, p) + (3229885.0 + 16721329.0) * Tail(13, 7, p)
  }

  lemma DotStep(v: seq<real>, w: seq<real>, k: nat)
    requires |v| == |w| && k < |v|
    ensures Dot(v[..k + 1], w[..k + 1]) == Dot(v[..k], w[..k]) + Share(v[k], w[k])
  {
    assert v[..k + 1][..k] == v[..k] && w[..k + 1][..k] == w[..k];
  }

  lemma ShareSwap(v: real, c: real)
    ensures Share(v, c) == c * v
  {
  }

  lemma DotFive(v: seq<real>, w: seq<real>, k: nat)
    requires |v| == |w| && k + 5 <= |v|
    ensures Dot(v[..k + 5], w[..k + 5]) == Dot(v[..k], w[..k])
      + Share(v[k], w[k]) + Share(v[k + 1], w[k + 1]) + Share(v[k + 2], w[k + 2]) + Share(v[k + 3], w[k + 3]) + Share(v[k + 4], w[k + 4])
  {
    hide *;
    DotStep(v, w, k);
    DotStep(v, w, k + 1);
    DotStep(v, w, k + 2);
    DotStep(v, w, k + 3);
    DotStep(v, w, k + 4);
  }

  lemma DotNothing(v: seq<real>, w: seq<real>)
    requires |v| == |w|
    ensures Dot(v[..0], w[..0]) == 0.0
  {
  }

  lemma DotTen(v: seq<real>, w: seq<real>)
    requires |v| == |w| == 10
    ensures Dot(v, w) == Share(v[0], w[0]) + Share(v[1], w[1]) + Share(v[2], w[2]) + Share(v[3], w[3]) + Share(v[4], w[4])
      + Share(v[5], w[5]) + Share(v[6], w[6]) + Share(v[7], w[7]) + Share(v[8], w[8]) + Share(v[9], w[9])
  {
    hide *;
    DotNothing(v, w);
    DotFive(v, w, 0);
    DotFive(v, w, 5);
    assert v[..10] == v && w[..10] == w;
  }

  /** The majority tail that a path's probability is. */
  lemma TailAt(d: nat, i: nat, p: real)
    requires d >= 1 && i < 10
    ensures PathErrors(d, p, 10)[i] == if (d + i) % 2 == 1 then Tail(d + i, (d + i + 1) / 2, p) else Tail(d + i - 1, (d + i) / 2, p)
  {
    PathErrorIsTail(d + i, p);
    hide PathError, Tail;
  }

  lemma UnionBound12(p: real, d: nat)
    requires d == 10
    ensures Dot(PathErrors(d, p, 10), Weights(Rate12)) == UnionBound(p, Rate12)
  {
    hide Dot, Share, Tail, PathError, PathErrors;
    var v, w := PathErrors(d, p, 10), Weights(Rate12);
    DotTen(v, w);
    TailAt(d, 0, p);
    ShareSwap(v[0], 11.0);
    TailAt(d, 1, p);
    ShareSwap(v[1], 0.0);
    TailAt(d, 2, p);
    ShareSwap(v[2], 38.0);
    TailAt(d, 3, p);
    ShareSwap(v[3], 0.0);
    TailAt(d, 4, p);
    ShareSwap(v[4], 193.0);
    TailAt(d, 5, p);
    ShareSwap(v[5], 0.0);
    TailAt(d, 6, p);
    ShareSwap(v[6], 1331.0);
    TailAt(d, 7, p);
    ShareSwap(v[7], 0.0);
    TailAt(d, 8, p);
    ShareSwap(v[8], 7275.0);
    TailAt(d, 9, p);
    ShareSwap(v[9], 0.0);
  }

  lemma UnionBound23(p: real, d: nat)
    requires d == 6
    ensures Dot(PathErrors(d, p, 10), Weights(Rate23)) == UnionBound(p, Rate23)
  {
    hide Dot, Share, Tail, PathError, PathErrors;
    var v, w := PathErrors(d, p, 10), Weights(Rate23);
    DotTen(v, w);
    TailAt(d, 0, p);
    ShareSwap(v[0], 1.0);
    TailAt(d, 1, p);
    ShareSwap(v[1], 16.0);
    TailAt(d, 2, p);
    ShareSwap(v[2], 48.0);
    TailAt(d, 3, p);
    ShareSwap(v[3], 158.0);
    TailAt(d, 4, p);
    ShareSwap(v[4], 642.0);
    TailAt(d, 5, p);
    ShareSwap(v[5], 2435.0);
    TailAt(d, 6, p);
    ShareSwap(v[6], 9174.0);
    TailAt(d, 7, p);
    ShareSwap(v[7], 34701.0);
    TailAt(d, 8, p);
    ShareSwap(v[8], 131533.0);
    TailAt(d, 9, p);
    ShareSwap(v[9], 499312.0);
  }

  lemma UnionBound34(p: real, d: nat)
    requires d == 5
    ensures Dot(PathErrors(d, p, 10), Weights(Rate34)) == UnionBound(p, Rate34)
  {
    hide Dot, Share, Tail, PathError, PathErrors;
    var v, w := PathErrors(d, p, 10), Weights(Rate34);
    DotTen(v, w);
    TailAt(d, 0, p);
    ShareSwap(v[0], 8.0);
    TailAt(d, 1, p);
    ShareSwap(v[1], 31.0);
    TailAt(d, 2, p);
    ShareSwap(v[2], 160.0);
    TailAt(d, 3, p);
    ShareSwap(v[3], 892.0);
    TailAt(d, 4, p);
    ShareSwap(v[4], 4512.0);
    TailAt(d, 5, p);
    ShareSwap(v[5], 23297.0);
    TailAt(d, 6, p);
    ShareSwap(v[6], 120976.0);
    TailAt(d, 7, p);
    ShareSwap(v[7], 624304.0);
    TailAt(d, 8, p);
    ShareSwap(v[8], 3229885.0);
    TailAt(d, 9, p);
    ShareSwap(v[9], 16721329.0);
  }

  lemma UnionBoundIs(p: real, fec: Fec)
    ensures Dot(PathErrors(FreeDistance(fec), p, 10), Weights(fec)) == UnionBound(p, fec)
  {
    hide Dot, UnionBound, Weights, PathErrors, Tail, PathError;
    match fec
    case Rate12 => UnionBound12(p, 10);
    case Rate23 => UnionBound23(p, 6);
    case Rate34 => UnionBound34(p, 5);
  }

  // ---------- from signal to error ----------

  /** rateset's constellation sizes and codes, by rate index. */
  const MQAM: seq<int> := [2, 2, 2, 4, 2, 2, 4, 4, 16, 16, 64, 64]
  const FECS: seq<Fec> := [Rate12, Rate12, Rate12, Rate12, Rate12, Rate34, Rate12, Rate34, Rate12, Rate34, Rate23, Rate34]

  function Modulation(i: nat): (m: int)
    requires i < |MQAM|
    ensures m in {2, 4, 16, 64}
  {
    MQAM[i]
  }

  function Root(m: int): real {
    if m == 4 then 2.0 else if m == 16 then 4.0 else 8.0
  }

  function Bits(m: int): real {
    if m == 4 then 2.0 else if m == 16 then 4.0 else 6.0
  }

  /** Bit error rate of BPSK and of square QAM, given the value erfc takes at the scaled signal. */
  function BitErrorRate(m: int, e: real): real
    requires m in {2, 4, 16, 64}
  {
    if m == 2 then 0.5 * e
    else (2.0 * (1.0 - 1.0 / Root(m)) * e - (1.0 - 2.0 / Root(m) + 1.0 / m as real) * (e * e)) / Bits(m)
  }

  /** How likely one axis of a QAM symbol is to be wrong. */
  function Axis(m: int, e: real): real {
    (1.0 - 1.0 / Root(m)) * e
  }

  function Either(x: real): real {
    1.0 - (1.0 - x) * (1.0 - x)
  }

  /** The bits of a symbol. */
  function SymbolBits(m: int): (b: nat)
    requires m in {2, 4, 16, 64}
    ensures Retry.Pow2(b) == m
  {
    assert Retry.Pow2(1) == 2 && Retry.Pow2(2) == 4 && Retry.Pow2(3) == 8 && Retry.Pow2(4) == 16 && Retry.Pow2(5) == 32;
    if m == 2 then 1 else if m == 4 then 2 else if m == 16 then 4 else 6
  }

  /**
   * A square QAM symbol is wrong when either of its axes is, and its error is spread over its bits; an
   * axis of 2, 4 or 8 levels is wrong with 1/2, 3/4 or 7/8 of erfc's value.
   */
  lemma QamAxes(m: int, e: real)
    requires m in {4, 16, 64}
    ensures BitErrorRate(m, e) == Either(Axis(m, e)) / Bits(m)
    ensures var x := if m == 4 then 0.5 * e else if m == 16 then 0.75 * e else 0.875 * e;
      Axis(m, e) == x && Either(x) == 1.0 - (1.0 - x) * (1.0 - x) && Bits(m) == SymbolBits(m) as real
    ensures BitErrorRate(2, e) == 0.5 * e
  {
    if m == 4 { QamExpand(0.5, e); } else if m == 16 { QamExpand(0.75, e); } else { QamExpand(0.875, e); }
  }

  lemma QamExpand(a: real, e: real)
    ensures Either(a * e) == 2.0 * a * e - (a * a) * (e * e)
  {
    assert (a * e) * (a * e) == (a * a) * (e * e);
  }

  lemma EitherDifference(x: real, y: real)
    ensures Either(y) - Either(x) == Share(y - x, (1.0 - x) + (1.0 - y))
  {
  }

  lemma AxisMonotone(x: real, y: real)
    requires 0.0 <= x <= y <= 1.0
    ensures 0.0 <= Either(x) <= Either(y) <= 1.0
  {
    EitherDifference(0.0, x);
    EitherDifference(x, y);
    EitherDifference(y, 1.0);
    assert Either(0.0) == 0.0 && Either(1.0) == 1.0;
    hide Either, Share;
    ShareSign(x, 2.0 - x);
    ShareSign(y - x, (1.0 - x) + (1.0 - y));
    ShareSign(1.0 - y, 1.0 - y);
  }

  lemma Divided(s: real, t: real, b: real)
    requires 0.0 <= s <= t <= 1.0 && b >= 1.0
    ensures 0.0 <= s / b <= t / b <= 1.0
  {
  }

  lemma BitErrorMonotone(m: int, e: real, f: real)
    requires m in {2, 4, 16, 64} && 0.0 <= e <= f <= 1.0
    ensures 0.0 <= BitErrorRate(m, e) <= BitErrorRate(m, f) <= 1.0
  {
    if m != 2 {
      QamAxes(m, e);
      QamAxes(m, f);
      hide BitErrorRate, Either;
      AxisMonotone(Axis(m, e), Axis(m, f));
      Divided(Either(Axis(m, e)), Either(Axis(m, f)), Bits(m));
    }
  }

  /** get_error_prob_from_snr; e is erfc at the signal's strength, one value per constellation. */
  function ErrorProb(snr: real, rateIdx: nat, freq: nat, len: nat, e: int -> real): real {
    var i := RateIndex(rateIdx, freq);
    if snr <= 0.0 then 1.0
    else if i >= |MQAM| then 1.0
    else PacketErrorRate(BitErrorRate(Modulation(i), e(Modulation(i))), FECS[i], len)
  }

  /** Above 5 GHz the four non-OFDM rates are skipped; the index is a 32-bit word. */
  function RateIndex(rateIdx: nat, freq: nat): nat {
    if freq > 5000 then (rateIdx + 4) % 0x1_0000_0000 else rateIdx
  }

  /** The code's rate, as bits in over bits out. */
  function CodeRate(fec: Fec): (nat, nat) {
    match fec
    case Rate12 => (1, 2)
    case Rate23 => (2, 3)
    case Rate34 => (3, 4)
  }

  /**
   * No signal, or a rate beyond the table, loses every frame. Otherwise the index, 4 more above 5 GHz, picks
   * the constellation and the code, which for an OFDM rate are such that 48 symbols in 4 us carry that rate.
   * The index is a 32-bit word.
   */
  lemma ErrorProbPicks(snr: real, rateIdx: nat, freq: nat, len: nat, e: int -> real)
    ensures var i := if freq > 5000 then (rateIdx + 4) % 0x1_0000_0000 else rateIdx;
      if snr <= 0.0 || i >= 12 then ErrorProb(snr, rateIdx, freq, len, e) == 1.0
      else
        var m := [2, 2, 2, 4, 2, 2, 4, 4, 16, 16, 64, 64][i];
        var fec := if i in {5, 7, 9, 11} then Rate34 else if i == 10 then Rate23 else Rate12;
        && ErrorProb(snr, rateIdx, freq, len, e) == PacketErrorRate(BitErrorRate(m, e(m)), fec, len)
        && (i >= 4 && rateIdx < 12 ==> Retry.IndexToRate(rateIdx, freq) * 4 * CodeRate(fec).1 == 10 * 48 * SymbolBits(m) * CodeRate(fec).0)
  {
    hide PacketErrorRate, BitErrorRate;
  }

  /**
   * A stronger signal, for which erfc is no larger, never makes a frame more likely to be lost, and
   * a longer frame never makes it less likely, at any rate index and frequency.
   */
  lemma ErrorProbMonotone(snr: real, weaker: real, rateIdx: nat, freq: nat, len: nat, longer: nat, e: int -> real, f: int -> real)
    requires weaker <= snr && len <= longer
    requires forall m :: m in {2, 4, 16, 64} ==> 0.0 <= e(m) <= f(m) <= 1.0
    ensures 0.0 <= ErrorProb(snr, rateIdx, freq, len, e) <= ErrorProb(weaker, rateIdx, freq, longer, f) <= 1.0
  {
    var i := RateIndex(rateIdx, freq);
    hide PacketErrorRate, BitErrorRate, Modulation;
    if i < |MQAM| {
      var m := Modulation(i);
      BitErrorMonotone(m, e(m), f(m));
      PerIsMonotone(FECS[i], BitErrorRate(m, e(m)), BitErrorRate(m, f(m)), len, longer);
    }
  }
}
