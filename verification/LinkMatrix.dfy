/** Filling a matrix of link qualities from a configured list and mirroring the one-way links. */
module LinkMatrix {
  import opened Common

  const SNR_DEFAULT := 30

  /** An element of the configured list: a triple, or something of another length. */
  datatype Entry<T> = Link(start: int, end: int, value: T) | Malformed

  // ---------- a square matrix in a flat array ----------

  function Cell(n: nat, i: nat, j: nat): (c: nat)
    requires i < n && j < n
    ensures c < n * n
  {
    RowFits(n, i);
    n * i + j
  }

  lemma RowFits(n: nat, i: nat)
    requires i < n
    ensures n * i + n <= n * n
  {
    assert n * i + n == n * (i + 1);
    RowsGrow(n, i + 1, n);
  }

  lemma RowsGrow(n: nat, i: nat, k: nat)
    requires i <= k
    ensures n * i <= n * k
  {
  }

  lemma RowAbove(n: nat, i: nat, k: nat)
    requires i < k
    ensures n * i + n <= n * k
  {
    assert n * i + n == n * (i + 1);
    RowsGrow(n, i + 1, k);
  }

  lemma CellsDiffer(n: nat, i: nat, j: nat, k: nat, l: nat)
    requires i < n && j < n && k < n && l < n && Cell(n, i, j) == Cell(n, k, l)
    ensures i == k && j == l
  {
    if i < k { RowAbove(n, i, k); }
    if k < i { RowAbove(n, k, i); }
  }

  predicate Square<T>(m: seq<T>, n: nat) {
    |m| == n * n
  }

  function At<T>(m: seq<T>, n: nat, i: nat, j: nat): T
    requires Square(m, n) && i < n && j < n
  {
    m[Cell(n, i, j)]
  }

  function Put<T>(m: seq<T>, n: nat, i: nat, j: nat, x: T): (r: seq<T>)
    requires Square(m, n) && i < n && j < n
    ensures Square(r, n)
  {
    m[Cell(n, i, j) := x]
  }

  lemma PutAt<T>(m: seq<T>, n: nat, i: nat, j: nat, x: T)
    requires Square(m, n) && i < n && j < n
    ensures forall k: nat, l: nat :: k < n && l < n ==> At(Put(m, n, i, j, x), n, k, l) == if k == i && l == j then x else At(m, n, k, l)
  {
    hide Cell;
    forall k: nat, l: nat | k < n && l < n
      ensures At(Put(m, n, i, j, x), n, k, l) == if k == i && l == j then x else At(m, n, k, l)
    {
      if Cell(n, k, l) == Cell(n, i, j) { CellsDiffer(n, i, j, k, l); }
    }
  }

  lemma SameAt<T>(a: seq<T>, b: seq<T>, n: nat)
    requires Square(a, n) && Square(b, n)
    requires forall i: nat, j: nat :: i < n && j < n ==> At(a, n, i, j) == At(b, n, i, j)
    ensures a == b
  {
    forall c | 0 <= c < n * n ensures a[c] == b[c] {
      RowOf(n, c);
      assert Cell(n, c / n, c % n) == c;
      assert At(a, n, c / n, c % n) == At(b, n, c / n, c % n);
    }
  }

  lemma RowOf(n: nat, c: nat)
    requires c < n * n
    ensures n > 0 && c / n < n && c == n * (c / n) + c % n
  {
    if c / n >= n { RowsGrow(n, n, c / n); }
  }

  // ---------- reading the list ----------

  predicate GoodEntry<T>(n: nat, e: Entry<T>, ok: T -> bool) {
    e.Link? && 0 <= e.start < n && 0 <= e.end < n && ok(e.value)
  }

  predicate AllGood<T>(n: nat, es: seq<Entry<T>>, ok: T -> bool) {
    forall k :: 0 <= k < |es| ==> GoodEntry(n, es[k], ok)
  }

  /** The value the list's last entry for this direction gives it. */
  function Last<T>(es: seq<Entry<T>>, i: int, j: int): Option<T> {
    if es == [] then None
    else
      var e := es[|es| - 1];
      if e.Link? && e.start == i && e.end == j then Some(e.value) else Last(es[..|es| - 1], i, j)
  }

  lemma LastSnoc<T>(es: seq<Entry<T>>, k: nat)
    requires k < |es| && es[k].Link?
    ensures forall i: int, j: int ::
      Last(es[..k + 1], i, j) == if i == es[k].start && j == es[k].end then Some(es[k].value) else Last(es[..k], i, j)
  {
    var longer := es[..k + 1];
    assert longer[..k] == es[..k] && longer[k] == es[k] && |longer| == k + 1;
    forall i: int, j: int
      ensures Last(longer, i, j) == if i == es[k].start && j == es[k].end then Some(es[k].value) else Last(es[..k], i, j) {}
  }

  /** The first entries of the list are in the matrix and in the map of configured links. */
  ghost predicate ReadSoFar<T(!new)>(was: seq<T>, m: seq<T>, lm: seq<bool>, n: nat, es: seq<Entry<T>>) {
    && Square(was, n) && Square(m, n) && Square(lm, n)
    && (forall i: nat, j: nat :: i < n && j < n ==> At(lm, n, i, j) == Last(es, i, j).Some?)
    && (forall i: nat, j: nat :: i < n && j < n ==>
         At(m, n, i, j) == if Last(es, i, j).Some? then Last(es, i, j).value else At(was, n, i, j))
  }

  lemma ReadStep<T(!new)>(was: seq<T>, m: seq<T>, lm: seq<bool>, n: nat, es: seq<Entry<T>>, k: nat, ok: T -> bool)
    requires k < |es| && GoodEntry(n, es[k], ok) && ReadSoFar(was, m, lm, n, es[..k])
    ensures var e := es[k];
      ReadSoFar(was, Put(m, n, e.start, e.end, e.value), Put(lm, n, e.start, e.end, true), n, es[..k + 1])
  {
    var e := es[k];
    PutAt(m, n, e.start, e.end, e.value);
    PutAt(lm, n, e.start, e.end, true);
    LastSnoc(es, k);
    hide At, Put, Last;
  }

  /** Either loop over a list of links: an entry that is not good ends it with an error. */
  method ReadLinks<T(!new)>(n: nat, es: seq<Entry<T>>, ok: T -> bool, matrix: array<T>, linkMap: array<bool>) returns (good: bool)
    requires matrix as object != linkMap as object && Square(matrix[..], n) && Square(linkMap[..], n)
    requires forall i: nat, j: nat :: i < n && j < n ==> !At(linkMap[..], n, i, j)
    modifies matrix, linkMap
    ensures good == AllGood(n, es, ok)
    ensures good ==> ReadSoFar(old(matrix[..]), matrix[..], linkMap[..], n, es)
  {
    ghost var was := matrix[..];
    var k := 0;
    assert es[..0] == [];
    assert ReadSoFar(was, matrix[..], linkMap[..], n, es[..0]);
    hide ReadSoFar, At;
    while k < |es|
      invariant k <= |es| && matrix.Length == linkMap.Length == n * n
      invariant forall l :: 0 <= l < k ==> GoodEntry(n, es[l], ok)
      invariant ReadSoFar(was, matrix[..], linkMap[..], n, es[..k])
    {
      var e := es[k];
      if !e.Link? || e.start < 0 || e.start >= n || e.end < 0 || e.end >= n || !ok(e.value) {
        assert !GoodEntry(n, es[k], ok);
        return false;
      }
      ReadStep(was, matrix[..], linkMap[..], n, es, k, ok);
      assert es[..k + 1] == es[..k] + [e];
      matrix[Cell(n, e.start, e.end)] := e.value;
      linkMap[Cell(n, e.start, e.end)] := true;
      hide Cell;
      k := k + 1;
    }
    assert es[..k] == es;
    good := true;
  }

  // ---------- mirroring ----------

  /** This direction is not configured, and the other one is. */
  predicate Mirrors(lm: seq<bool>, n: nat, i: nat, j: nat)
    requires Square(lm, n) && i < n && j < n
  {
    i != j && !At(lm, n, i, j) && At(lm, n, j, i)
  }

  /** mirror_link, when the map says so: from i, j to j, i. */
  function MirrorOne<T>(m: seq<T>, lm: seq<bool>, n: nat, i: nat, j: nat): (r: seq<T>)
    requires Square(m, n) && Square(lm, n) && i < n && j < n
    ensures Square(r, n)
  {
    if Mirrors(lm, n, j, i) then Put(m, n, j, i, At(m, n, i, j)) else m
  }

  /** Mirroring pair after pair, in any order of pairs. */
  function MirrorAll<T>(m: seq<T>, lm: seq<bool>, n: nat, pairs: seq<(nat, nat)>): (r: seq<T>)
    requires Square(m, n) && Square(lm, n) && forall p :: p in pairs ==> p.0 < n && p.1 < n
    ensures Square(r, n)
  {
    if pairs == [] then m
    else
      var p := pairs[|pairs| - 1];
      assert p in pairs;
      MirrorOne(MirrorAll(m, lm, n, pairs[..|pairs| - 1]), lm, n, p.0, p.1)
  }

  /** The pairs done so far decide each entry, and a source of a copy is never itself overwritten. */
  lemma {:induction false} MirrorAllAt<T>(m: seq<T>, lm: seq<bool>, n: nat, pairs: seq<(nat, nat)>, i: nat, j: nat)
    requires Square(m, n) && Square(lm, n) && (forall p :: p in pairs ==> p.0 < n && p.1 < n) && i < n && j < n
    ensures At(MirrorAll(m, lm, n, pairs), n, i, j) == if (j, i) in pairs && Mirrors(lm, n, i, j) then At(m, n, j, i) else At(m, n, i, j)
  {
    if pairs != [] {
      var init, p := pairs[..|pairs| - 1], pairs[|pairs| - 1];
      assert p in pairs && pairs == init + [p];
      var before := MirrorAll(m, lm, n, init);
      MirrorAllAt(m, lm, n, init, i, j);
      MirrorAllAt(m, lm, n, init, j, i);
      PutAt(before, n, p.1, p.0, At(before, n, p.0, p.1));
      assert MirrorAll(m, lm, n, pairs) == MirrorOne(before, lm, n, p.0, p.1);
      hide MirrorAll, At, Put;
    }
  }

  ghost predicate Complete(n: nat, pairs: seq<(nat, nat)>) {
    forall i: nat, j: nat :: i < n && j < n && i != j ==> (i, j) in pairs
  }

  /** Any two complete orders of mirroring give the same matrix. */
  lemma MirrorOrderIrrelevant<T>(m: seq<T>, lm: seq<bool>, n: nat, pairs: seq<(nat, nat)>, others: seq<(nat, nat)>)
    requires Square(m, n) && Square(lm, n) && Complete(n, pairs) && Complete(n, others)
    requires (forall p :: p in pairs ==> p.0 < n && p.1 < n) && (forall p :: p in others ==> p.0 < n && p.1 < n)
    ensures MirrorAll(m, lm, n, pairs) == MirrorAll(m, lm, n, others)
  {
    var a, b := MirrorAll(m, lm, n, pairs), MirrorAll(m, lm, n, others);
    hide At, MirrorAll;
    forall i: nat, j: nat | i < n && j < n ensures At(a, n, i, j) == At(b, n, i, j) {
      MirrorAllAt(m, lm, n, pairs, i, j);
      MirrorAllAt(m, lm, n, others, i, j);
    }
    SameAt(a, b, n);
  }

  /** The pairs the program visits, row by row, up to row i, column j. */
  function RowOrder(n: nat, i: nat, j: nat): (ps: seq<(nat, nat)>)
    requires j <= n
    ensures forall p :: p in ps <==> p.0 != p.1 && ((p.0 < i && p.1 < n) || (p.0 == i && p.1 < j))
    decreases i, j
  {
    if j > 0 then RowOrder(n, i, j - 1) + (if i == j - 1 then [] else [(i, j - 1)])
    else if i > 0 then RowOrder(n, i - 1, n)
    else []
  }

  /** The matrix when the program has mirrored the pairs up to row i, column j. */
  function Mirrored<T>(m: seq<T>, lm: seq<bool>, n: nat, i: nat, j: nat): (r: seq<T>)
    requires Square(m, n) && Square(lm, n) && i <= n && j <= n && (i == n ==> j == 0)
    ensures Square(r, n)
  {
    MirrorAll(m, lm, n, RowOrder(n, i, j))
  }

  ghost predicate Halfway<T(!new)>(was: seq<T>, lm: seq<bool>, now: seq<T>, n: nat, i: nat, j: nat) {
    && Square(was, n) && Square(lm, n) && Square(now, n) && i <= n && j <= n && (i == n ==> j == 0)
    && now == Mirrored(was, lm, n, i, j)
  }

  lemma MirrorStarts<T(!new)>(was: seq<T>, lm: seq<bool>, n: nat)
    requires Square(was, n) && Square(lm, n)
    ensures Halfway(was, lm, was, n, 0, 0)
  {
  }

  lemma MirrorNext<T(!new)>(was: seq<T>, lm: seq<bool>, now: seq<T>, n: nat, i: nat, j: nat)
    requires Halfway(was, lm, now, n, i, j) && i < n && j < n
    ensures Halfway(was, lm, if i == j then now else MirrorOne(now, lm, n, i, j), n, i, j + 1)
  {
    var ps := RowOrder(n, i, j);
    assert RowOrder(n, i, j + 1) == if i == j then ps else ps + [(i, j)];
    hide RowOrder, MirrorOne;
    assert (ps + [(i, j)])[..|ps|] == ps;
  }

  lemma MirrorRowEnds<T(!new)>(was: seq<T>, lm: seq<bool>, now: seq<T>, n: nat, i: nat)
    requires i < n && Halfway(was, lm, now, n, i, n)
    ensures Halfway(was, lm, now, n, i + 1, 0)
  {
    assert RowOrder(n, i, n) == RowOrder(n, i + 1, 0);
    hide RowOrder, MirrorAll;
  }

  /** The double loop over all pairs. */
  method MirrorLinks<T(!new)>(n: nat, matrix: array<T>, linkMap: array<bool>)
    requires matrix as object != linkMap as object && Square(matrix[..], n) && Square(linkMap[..], n)
    modifies matrix
    ensures Halfway(old(matrix[..]), linkMap[..], matrix[..], n, n, 0)
  {
    ghost var was := matrix[..];
    MirrorStarts(was, linkMap[..], n);
    hide Halfway;
    var i := 0;
    while i < n
      invariant i <= n && Halfway(was, linkMap[..], matrix[..], n, i, 0)
    {
      var j := 0;
      while j < n
        invariant j <= n && Halfway(was, linkMap[..], matrix[..], n, i, j)
      {
        MirrorTurn(was, n, i, j, matrix, linkMap);
        j := j + 1;
      }
      MirrorRowEnds(was, linkMap[..], matrix[..], n, i);
      i := i + 1;
    }
  }

  /** One turn of the inner loop, with mirror_link. */
  method MirrorTurn<T(!new)>(ghost was: seq<T>, n: nat, i: nat, j: nat, matrix: array<T>, linkMap: array<bool>)
    requires matrix as object != linkMap as object && i < n && j < n
    requires Halfway(was, linkMap[..], matrix[..], n, i, j)
    modifies matrix
    ensures Halfway(was, linkMap[..], matrix[..], n, i, j + 1)
  {
    MirrorNext(was, linkMap[..], matrix[..], n, i, j);
    assert Square(matrix[..], n) && Square(linkMap[..], n);
    hide Halfway;
    if i == j {
      return;
    }
    var from, to := Cell(n, i, j), Cell(n, j, i);
    if linkMap[from] && !linkMap[to] {
      matrix[to] := matrix[from];
    }
  }

  // ---------- the finished matrix ----------

  /** A direction's own last value, else the reverse direction's, else the default. */
  function Quality<T>(es: seq<Entry<T>>, i: nat, j: nat, otherwise: T): T {
    if Last(es, i, j).Some? then Last(es, i, j).value
    else if i != j && Last(es, j, i).Some? then Last(es, j, i).value
    else otherwise
  }

  /** The entry is for this direction. */
  predicate For<T>(e: Entry<T>, i: int, j: int) {
    e.Link? && e.start == i && e.end == j
  }

  /** Entry k is the last for this direction. */
  predicate LastFor<T>(es: seq<Entry<T>>, k: nat, i: int, j: int) {
    k < |es| && For(es[k], i, j) && forall l :: k < l < |es| ==> !For(es[l], i, j)
  }

  lemma {:induction false} LastIs<T>(es: seq<Entry<T>>, i: int, j: int, k: nat)
    ensures LastFor(es, k, i, j) ==> Last(es, i, j) == Some(es[k].value)
    ensures (forall l :: 0 <= l < |es| ==> !For(es[l], i, j)) ==> Last(es, i, j) == None
  {
    if es != [] {
      var n := |es| - 1;
      assert For(es[n], i, j) ==> LastFor(es, n, i, j);
      LastIs(es[..n], i, j, k);
    }
  }

  /**
   * The last entry for a direction decides it; without one, the last for the other direction does,
   * except on the diagonal; without either it is the default.
   */
  lemma QualityExactly<T>(es: seq<Entry<T>>, i: nat, j: nat, otherwise: T, k: nat)
    ensures LastFor(es, k, i, j) ==> Quality(es, i, j, otherwise) == es[k].value
    ensures (forall l :: 0 <= l < |es| ==> !For(es[l], i, j)) ==>
      && (i != j && LastFor(es, k, j, i) ==> Quality(es, i, j, otherwise) == es[k].value)
      && ((forall l :: 0 <= l < |es| ==> !For(es[l], j, i)) ==> Quality(es, i, j, otherwise) == otherwise)
  {
    LastIs(es, i, j, k);
    LastIs(es, j, i, k);
    hide Last, For, LastFor;
  }

  /** The matrix is stored row by row. */
  lemma RowMajor<T>(m: seq<T>, n: nat, i: nat, j: nat)
    requires Square(m, n) && i < n && j < n
    ensures n * i + j < |m| && At(m, n, i, j) == m[n * i + j]
  {
    RowFits(n, i);
  }

  lemma MirroredIsQuality<T(!new)>(was: seq<T>, m: seq<T>, lm: seq<bool>, done: seq<T>, n: nat, es: seq<Entry<T>>, i: nat, j: nat)
    requires ReadSoFar(was, m, lm, n, es) && i < n && j < n && Halfway(m, lm, done, n, n, 0)
    ensures At(done, n, i, j) == Quality(es, i, j, At(was, n, i, j))
  {
    MirrorAllAt(m, lm, n, RowOrder(n, n, 0), i, j);
    hide MirrorAll, At, Last;
  }

  /** Reading and mirroring: what both kinds of configuration share. */
  method ReadAndMirror<T(!new)>(n: nat, es: seq<Entry<T>>, ok: T -> bool, matrix: array<T>) returns (good: bool)
    requires Square(matrix[..], n)
    modifies matrix
    ensures good == AllGood(n, es, ok)
    ensures good ==> Square(matrix[..], n)
    ensures good ==>
      forall i: nat, j: nat :: i < n && j < n ==> At(matrix[..], n, i, j) == Quality(es, i, j, At(old(matrix[..]), n, i, j))
  {
    ghost var was := matrix[..];
    var linkMap := new bool[n * n](_ => false);
    assert forall i: nat, j: nat :: i < n && j < n ==> !At(linkMap[..], n, i, j);
    hide At, Last, Quality, AllGood;
    good := ReadLinks(n, es, ok, matrix, linkMap);
    if good {
      ghost var m, lm := matrix[..], linkMap[..];
      ReadIsSquare(was, m, lm, n, es);
      hide ReadSoFar;
      MirrorLinks(n, matrix, linkMap);
      ghost var done := matrix[..];
      forall i: nat, j: nat | i < n && j < n ensures At(done, n, i, j) == Quality(es, i, j, At(was, n, i, j)) {
        MirroredIsQuality(was, m, lm, done, n, es, i, j);
      }
    }
  }

  lemma ReadIsSquare<T(!new)>(was: seq<T>, m: seq<T>, lm: seq<bool>, n: nat, es: seq<Entry<T>>)
    requires ReadSoFar(was, m, lm, n, es)
    ensures Square(m, n) && Square(lm, n)
  {
  }

  /** A configuration of signal-to-noise ratios; good is false where load_config returns -EINVAL. */
  method LoadSnr(n: nat, links: seq<Entry<int>>) returns (good: bool, snr: array<int>)
    ensures good == AllGood(n, links, _ => true)
    ensures good ==> Square(snr[..], n)
    ensures good ==>
      forall i: nat, j: nat :: i < n && j < n ==> At(snr[..], n, i, j) == Quality(links, i, j, SNR_DEFAULT)
  {
    snr := new int[n * n](_ => SNR_DEFAULT);
    ghost var was := snr[..];
    assert forall i: nat, j: nat :: i < n && j < n ==> At(was, n, i, j) == SNR_DEFAULT;
    hide At, Quality, AllGood;
    good := ReadAndMirror(n, links, _ => true, snr);
  }

  predicate Probability(p: real) {
    0.0 <= p <= 1.0
  }

  /** A configuration of error probabilities. On the diagonal the default is always 0. */
  method LoadProb(n: nat, defaultProb: real, errorProbs: seq<Entry<real>>) returns (good: bool, prob: array<real>)
    ensures good == (Probability(defaultProb) && AllGood(n, errorProbs, Probability))
    ensures good ==> Square(prob[..], n)
    ensures good ==>
      forall i: nat, j: nat :: i < n && j < n ==>
        At(prob[..], n, i, j) == Quality(errorProbs, i, j, if i == j then 0.0 else defaultProb)
  {
    prob := new real[n * n](_ => 0.0);
    if defaultProb < 0.0 || defaultProb > 1.0 {
      return false, prob;
    }
    FillDefault(n, defaultProb, prob);
    ghost var was := prob[..];
    hide At, Quality, AllGood;
    good := ReadAndMirror(n, errorProbs, Probability, prob);
  }

  /** Pairs in rows before start, and in row start before column end, hold the default both ways. */
  predicate Reached(i: nat, j: nat, start: nat, end: nat) {
    (i < start && i < j) || (i == start && i < j < end)
  }

  ghost predicate Defaulted(m: seq<real>, n: nat, d: real, start: nat, end: nat) {
    Square(m, n) && forall i: nat, j: nat :: i < n && j < n ==>
      At(m, n, i, j) == if Reached(i, j, start, end) || Reached(j, i, start, end) then d else 0.0
  }

  lemma DefaultedStep(m: seq<real>, n: nat, d: real, start: nat, end: nat)
    requires Defaulted(m, n, d, start, end) && start < end < n
    ensures Defaulted(Put(Put(m, n, start, end, d), n, end, start, d), n, d, start, end + 1)
  {
    PutAt(m, n, start, end, d);
    PutAt(Put(m, n, start, end, d), n, end, start, d);
    hide At, Put;
  }

  method FillDefault(n: nat, d: real, prob: array<real>)
    requires Square(prob[..], n) && forall i: nat, j: nat :: i < n && j < n ==> At(prob[..], n, i, j) == 0.0
    modifies prob
    ensures Square(prob[..], n) &&
      forall i: nat, j: nat :: i < n && j < n ==> At(prob[..], n, i, j) == if i == j then 0.0 else d
  {
    hide At;
    var start := 0;
    while start < n
      invariant start <= n && Defaulted(prob[..], n, d, start, start + 1)
    {
      var end := start + 1;
      while end < n
        invariant start < end <= n && Defaulted(prob[..], n, d, start, end)
      {
        DefaultedStep(prob[..], n, d, start, end);
        PutPair(n, d, start, end, prob);
        end := end + 1;
      }
      start := start + 1;
    }
  }

  method PutPair(n: nat, d: real, start: nat, end: nat, prob: array<real>)
    requires Square(prob[..], n) && start < n && end < n
    modifies prob
    ensures prob[..] == Put(Put(old(prob[..]), n, start, end, d), n, end, start, d)
  {
    prob[Cell(n, start, end)] := d;
    prob[Cell(n, end, start)] := d;
  }
}
