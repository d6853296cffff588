/** The retry loop of queue_frame: which attempts a frame takes, and how long they last. */
module Retry {
  import opened Common

  /** One entry of a frame's rate table; a negative index ends the table. */
  datatype TxRate = TxRate(idx: int, count: nat)

  const SLOT_TIME: int := 9
  const SIFS: int := 16
  const DIFS: int := 2 * SLOT_TIME + SIFS

  /** Rates in 100 kbit/s; above 5 GHz the four rates that are not OFDM are skipped. */
  const RATES: seq<int> := [10, 20, 55, 110, 60, 90, 120, 180, 240, 360, 480, 540]

  function IndexToRate(index: nat, freq: nat): (r: int)
    ensures r in RATES && 10 <= r <= 540
  {
    var i := if freq > 5000 then index + 4 else index;
    RATES[if i >= |RATES| then |RATES| - 1 else i]
  }

  /** Above 5 GHz the first four rates are skipped, so they are the OFDM ones; beyond the table its last rate is used. */
  lemma RateUsed(index: nat, freq: nat)
    ensures freq <= 5000 && index < 12 ==>
      IndexToRate(index, freq) == [10, 20, 55, 110, 60, 90, 120, 180, 240, 360, 480, 540][index]
    ensures freq > 5000 && index < 8 ==> IndexToRate(index, freq) == [60, 90, 120, 180, 240, 360, 480, 540][index]
    ensures index >= (if freq > 5000 then 8 else 12) ==> IndexToRate(index, freq) == 540
  {
  }

  function DivRound(a: int, b: int): int
    requires b > 0
  {
    (a + b - 1) / b
  }

  /** Duration of an OFDM transmission of len bytes: preamble, signal field, and 4 us symbols. */
  function PktDuration(len: nat, rate: int): int
    requires rate > 0
  {
    16 + 4 + 4 * DivRound((16 + 8 * len + 6) * 10, 4 * rate)
  }

  /**
   * TXTIME of section 17.4.3 of IEEE Std 802.11-2016: the symbols are the fewest that carry the
   * 16 service bits, the frame and the 6 tail bits, at 4 * rate tenths of a bit each.
   */
  lemma PktDurationSymbols(len: nat, rate: int, n: int)
    requires rate > 0
    ensures PktDuration(len, rate) <= 20 + 4 * n <==> 10 * (16 + 8 * len + 6) <= 4 * rate * n
  {
    var a, b := (16 + 8 * len + 6) * 10, 4 * rate;
    var q := DivRound(a, b);
    QuotientBounds(a + b - 1, b);
    MulOrder(b, q, n);
    MulOrder(b, n + 1, q);
    assert b * (n + 1) == b * n + b;
    assert 4 * rate * n == b * n;
  }

  /** t is the time of len bytes at a rate: 20 us, and the fewest 4 us symbols that carry their bits. */
  predicate IsTxTime(t: int, len: nat, rate: int) {
    var n := (t - 20) / 4;
    t == 20 + 4 * n && 4 * rate * (n - 1) < 10 * (8 * len + 22) <= 4 * rate * n
  }

  lemma PktDurationIsTxTime(len: nat, rate: int)
    requires rate > 0
    ensures IsTxTime(PktDuration(len, rate), len, rate)
  {
    var n := (PktDuration(len, rate) - 20) / 4;
    assert PktDuration(len, rate) == 20 + 4 * n;
    PktDurationSymbols(len, rate, n);
    PktDurationSymbols(len, rate, n - 1);
    hide PktDuration;
  }

  lemma MulOrder(r: int, a: int, b: int)
    requires r > 0
    ensures a <= b ==> r * a <= r * b
  {
    if a <= b { assert r * b == r * a + r * (b - a); }
  }

  function AckTime(freq: nat): int {
    PktDuration(14, IndexToRate(0, freq)) + SIFS
  }

  // ---------- contention window ----------

  function Pow2(n: nat): (r: int)
    ensures r >= 1
  {
    if n == 0 then 1 else 2 * Pow2(n - 1)
  }

  /** The contention window after n backoffs. */
  function Window(cwMin: nat, cwMax: nat, n: nat): int {
    Min((cwMin + 1) * Pow2(n) - 1, cwMax)
  }

  /** The program's update of the window. */
  function Widen(cw: int, cwMax: int): int {
    var w := 2 * cw + 1;
    if w > cwMax then cwMax else w
  }

  /** Each backoff doubles the window and adds 1, up to cwMax. */
  lemma WindowWidens(cwMin: nat, cwMax: nat, n: nat)
    requires cwMin <= cwMax
    ensures Window(cwMin, cwMax, 0) == cwMin
    ensures Window(cwMin, cwMax, n + 1) == Widen(Window(cwMin, cwMax, n), cwMax) == Min(2 * Window(cwMin, cwMax, n) + 1, cwMax)
  {
    assert (cwMin + 1) * Pow2(n + 1) == 2 * ((cwMin + 1) * Pow2(n));
  }

  function BackoffTime(cw: int): int {
    cw * SLOT_TIME / 2
  }

  /** Time spent in the first n backoffs. */
  function Backoffs(cwMin: nat, cwMax: nat, n: nat): int {
    if n == 0 then 0 else Backoffs(cwMin, cwMax, n - 1) + BackoffTime(Window(cwMin, cwMax, n - 1))
  }

  // ---------- attempts ----------

  function Sum(s: seq<nat>): nat {
    if s == [] then 0 else Sum(s[..|s| - 1]) + s[|s| - 1]
  }

  /** Each rate's attempts after its first are preceded by a backoff. */
  function BackoffCount(used: seq<nat>): nat {
    if used == [] then 0
    else BackoffCount(used[..|used| - 1]) + if used[|used| - 1] == 0 then 0 else used[|used| - 1] - 1
  }

  function Times(n: nat, d: int): int {
    n * d
  }

  lemma TimesStep(n: nat, d: int)
    ensures Times(n + 1, d) == Times(n, d) + d && Times(0, d) == 0
  {
  }

  lemma {:induction false} TimesBound(n: nat, d: int, top: int)
    requires 0 <= d <= top
    ensures 0 <= Times(n, d) <= Times(n, top)
  {
    if n > 0 {
      TimesBound(n - 1, d, top);
      TimesStep(n - 1, d);
      TimesStep(n - 1, top);
      hide Times;
    }
  }

  /** One attempt's time up to the acknowledgement. */
  function AttemptTime(len: nat, freq: nat, idx: nat): int {
    DIFS + PktDuration(len, IndexToRate(idx, freq))
  }

  /** Time on the air, given the attempts made at each rate. */
  function Air(rates: seq<TxRate>, used: seq<nat>, len: nat, freq: nat): int
    requires |used| <= |rates|
    requires forall k :: 0 <= k < |used| ==> rates[k].idx >= 0
  {
    if used == [] then 0
    else
      var k := |used| - 1;
      Air(rates, used[..k], len, freq) + Times(used[k], AttemptTime(len, freq, rates[k].idx))
  }

  /** The closed form of send_time. */
  function SendTime(rates: seq<TxRate>, used: seq<nat>, len: nat, freq: nat, noack: bool, cwMin: nat, cwMax: nat): int
    requires |used| <= |rates|
    requires forall k :: 0 <= k < |used| ==> rates[k].idx >= 0
  {
    Air(rates, used, len, freq) +
    if noack then 0 else Times(Sum(used), AckTime(freq)) + Backoffs(cwMin, cwMax, BackoffCount(used))
  }

  /** The random number attempt t is decided by. */
  function Draw(draws: nat -> real, fixed: bool, t: nat): real {
    draws(if fixed then 0 else t)
  }

  /** The attempts made before rate k. */
  function Earlier(used: seq<nat>, k: nat): nat
    requires k <= |used|
  {
    Sum(used[..k])
  }

  lemma EarlierSame(before: seq<nat>, j: nat, k: nat)
    requires k <= |before|
    ensures Earlier(before + [j], k) == Earlier(before, k)
    ensures Earlier(before, |before|) == Sum(before)
  {
    assert (before + [j])[..k] == before[..k] && before[..|before|] == before;
  }

  /** Whether attempt j at rate k gets its acknowledgement. */
  ghost predicate Succeeds(rates: seq<TxRate>, used: seq<nat>, k: nat, j: nat, noack: bool, draws: nat -> real, fixed: bool, errorProb: int -> real)
    requires k < |used| <= |rates|
  {
    noack || Draw(draws, fixed, Earlier(used, k) + j) > errorProb(rates[k].idx)
  }

  ghost predicate Outcomes(rates: seq<TxRate>, used: seq<nat>, acked: bool, noack: bool, draws: nat -> real, fixed: bool, errorProb: int -> real)
    requires |used| <= |rates|
  {
    forall k, j :: 0 <= k < |used| && 0 <= j < used[k] ==>
      (Succeeds(rates, used, k, j, noack, draws, fixed, errorProb) <==> acked && k == |used| - 1 && j == used[k] - 1)
  }

  /** Attempts made along the rate table in order: all that a rate allows before the next. */
  ghost predicate Along(rates: seq<TxRate>, used: seq<nat>) {
    && |used| <= |rates|
    && (forall k :: 0 <= k < |used| ==> rates[k].idx >= 0 && used[k] <= rates[k].count)
    && (forall k :: 0 <= k < |used| - 1 ==> used[k] == rates[k].count)
  }

  lemma OneMoreAlong(rates: seq<TxRate>, before: seq<nat>, j: nat)
    requires Along(rates, before + [j])
    ensures |before| < |rates| && (j < rates[|before|].count ==> Along(rates, before + [j + 1]))
  {
    var u, v := before + [j], before + [j + 1];
    assert u[|before|] == j;
    assert forall k :: 0 <= k < |before| ==> v[k] == u[k];
  }

  /** used records attempts made along the rate table in order; only an acknowledged one, the last, succeeded. */
  ghost predicate Made(rates: seq<TxRate>, used: seq<nat>, acked: bool, noack: bool, draws: nat -> real, fixed: bool, errorProb: int -> real) {
    && Along(rates, used)
    && Outcomes(rates, used, acked, noack, draws, fixed, errorProb)
    && (acked ==> used != [] && used[|used| - 1] > 0)
  }

  /** Without an acknowledgement the whole table was used up. */
  ghost predicate Exhausted(rates: seq<TxRate>, used: seq<nat>)
    requires |used| <= |rates|
  {
    && (forall k :: 0 <= k < |used| ==> used[k] == rates[k].count)
    && (|used| < |rates| ==> rates[|used|].idx < 0)
  }

  /** One more attempt at the last rate: its number among all attempts, and what it adds to the totals. */
  lemma OneMore(before: seq<nat>, j: nat)
    ensures Sum(before + [j]) == Sum(before) + j && Sum(before + [j + 1]) == Sum(before + [j]) + 1
    ensures BackoffCount(before + [j + 1]) == BackoffCount(before + [j]) + if j > 0 then 1 else 0
    ensures BackoffCount(before + [0]) == BackoffCount(before)
  {
    assert (before + [j])[..|before|] == before && (before + [j + 1])[..|before|] == before;
    assert (before + [0])[..|before|] == before;
  }

  lemma OneMoreAir(rates: seq<TxRate>, before: seq<nat>, j: nat, len: nat, freq: nat)
    requires |before| < |rates| && forall k :: 0 <= k <= |before| ==> rates[k].idx >= 0
    ensures Air(rates, before + [j + 1], len, freq) == Air(rates, before + [j], len, freq) + AttemptTime(len, freq, rates[|before|].idx)
    ensures Air(rates, before + [0], len, freq) == Air(rates, before, len, freq)
  {
    hide AttemptTime, Times;
    var d := AttemptTime(len, freq, rates[|before|].idx);
    assert (before + [j])[..|before|] == before && (before + [j + 1])[..|before|] == before && (before + [0])[..|before|] == before;
    TimesStep(j, d);
  }

  lemma OneMoreTime(rates: seq<TxRate>, before: seq<nat>, j: nat, len: nat, freq: nat, noack: bool, cwMin: nat, cwMax: nat)
    requires |before| < |rates| && forall k :: 0 <= k <= |before| ==> rates[k].idx >= 0
    ensures SendTime(rates, before + [j + 1], len, freq, noack, cwMin, cwMax) == SendTime(rates, before + [j], len, freq, noack, cwMin, cwMax)
        + AttemptTime(len, freq, rates[|before|].idx)
        + (if noack then 0 else AckTime(freq))
        + (if noack || j == 0 then 0 else BackoffTime(Window(cwMin, cwMax, BackoffCount(before + [j]))))
    ensures SendTime(rates, before + [0], len, freq, noack, cwMin, cwMax) == SendTime(rates, before, len, freq, noack, cwMin, cwMax)
  {
    hide AttemptTime, AckTime, Air, Sum, BackoffCount, Window, Times, BackoffTime;
    OneMore(before, j);
    OneMore(before, 0);
    OneMoreAir(rates, before, j, len, freq);
    TimesStep(Sum(before + [j]), AckTime(freq));
  }

  lemma OneMoreMade(rates: seq<TxRate>, before: seq<nat>, j: nat, acked: bool, noack: bool, draws: nat -> real, fixed: bool, errorProb: int -> real)
    requires Made(rates, before + [j], false, noack, draws, fixed, errorProb) && |before| < |rates| && j < rates[|before|].count
    requires acked == (noack || Draw(draws, fixed, Sum(before) + j) > errorProb(rates[|before|].idx))
    ensures Made(rates, before + [j + 1], acked, noack, draws, fixed, errorProb)
  {
    OneMoreAlong(rates, before, j);
    hide Sum, Draw, Outcomes, Along;
    OneMoreOutcome(rates, before, j, acked, noack, draws, fixed, errorProb);
  }

  lemma OneMoreOutcome(rates: seq<TxRate>, before: seq<nat>, j: nat, acked: bool, noack: bool, draws: nat -> real, fixed: bool, errorProb: int -> real)
    requires |before| < |rates| && Outcomes(rates, before + [j], false, noack, draws, fixed, errorProb)
    requires acked == (noack || Draw(draws, fixed, Sum(before) + j) > errorProb(rates[|before|].idx))
    ensures Outcomes(rates, before + [j + 1], acked, noack, draws, fixed, errorProb)
  {
    hide Sum, Draw, Outcomes, Earlier;
    var u, v := before + [j], before + [j + 1];
    forall k, m | 0 <= k < |v| && 0 <= m < v[k]
      ensures Succeeds(rates, v, k, m, noack, draws, fixed, errorProb) <==> acked && k == |v| - 1 && m == v[k] - 1
    {
      EarlierSame(before, j, k);
      EarlierSame(before, j + 1, k);
      if !(k == |before| && m == j) {
        Failed(rates, u, k, m, noack, draws, fixed, errorProb);
      }
    }
    AllOutcomes(rates, v, acked, noack, draws, fixed, errorProb);
  }

  lemma Failed(rates: seq<TxRate>, used: seq<nat>, k: nat, j: nat, noack: bool, draws: nat -> real, fixed: bool, errorProb: int -> real)
    requires |used| <= |rates| && Outcomes(rates, used, false, noack, draws, fixed, errorProb) && k < |used| && j < used[k]
    ensures !Succeeds(rates, used, k, j, noack, draws, fixed, errorProb)
  {
  }

  lemma AllOutcomes(rates: seq<TxRate>, used: seq<nat>, acked: bool, noack: bool, draws: nat -> real, fixed: bool, errorProb: int -> real)
    requires |used| <= |rates|
    requires forall k, j :: 0 <= k < |used| && 0 <= j < used[k] ==>
      (Succeeds(rates, used, k, j, noack, draws, fixed, errorProb) <==> acked && k == |used| - 1 && j == used[k] - 1)
    ensures Outcomes(rates, used, acked, noack, draws, fixed, errorProb)
  {
  }

  lemma NextRateMade(rates: seq<TxRate>, before: seq<nat>, noack: bool, draws: nat -> real, fixed: bool, errorProb: int -> real)
    requires Made(rates, before, false, noack, draws, fixed, errorProb) && |before| < |rates| && rates[|before|].idx >= 0
    requires forall k :: 0 <= k < |before| ==> before[k] == rates[k].count
    ensures Made(rates, before + [0], false, noack, draws, fixed, errorProb)
  {
    hide Sum, Draw, Earlier;
    var u := before + [0];
    forall k, m | 0 <= k < |u| && 0 <= m < u[k]
      ensures !Succeeds(rates, u, k, m, noack, draws, fixed, errorProb)
    {
      EarlierSame(before, 0, k);
      Failed(rates, before, k, m, noack, draws, fixed, errorProb);
    }
  }

  /** The rate table reported back: attempts made per used rate, and the unused rates voided once acknowledged. */
  function Reported(rates: seq<TxRate>, used: seq<nat>, acked: bool): (r: seq<TxRate>)
    ensures |r| == |rates|
  {
    seq(|rates|, k requires 0 <= k < |rates| =>
      if !acked then rates[k] else if k < |used| then rates[k].(count := used[k]) else TxRate(-1, 255))
  }

  lemma ReportedAt(rates: seq<TxRate>, used: seq<nat>, acked: bool)
    ensures forall k :: 0 <= k < |rates| ==>
      Reported(rates, used, acked)[k] == if !acked then rates[k] else if k < |used| then TxRate(rates[k].idx, used[k]) else TxRate(-1, 255)
    ensures !acked ==> Reported(rates, used, acked) == rates
  {
  }

  /** The attempts at one rate, the inner loop: before lists those at the rates before it. */
  method TryRate(rates: array<TxRate>, i: nat, len: nat, freq: nat, noack: bool, cwMin: nat, cwMax: nat,
                 draws: nat -> real, fixed: bool, errorProb: int -> real, ghost before: seq<nat>,
                 sendTime0: int, retries0: nat, cw0: int, draw0: nat)
    returns (sendTime: int, acked: bool, retries: nat, cw: int, draw: nat, j: nat)
    requires cwMin <= cwMax && i == |before| < rates.Length && rates[i].idx >= 0
    requires Made(rates[..], before, false, noack, draws, fixed, errorProb)
    requires forall k :: 0 <= k < i ==> before[k] == rates[k].count
    requires sendTime0 == SendTime(rates[..], before, len, freq, noack, cwMin, cwMax) && retries0 == Sum(before)
    requires cw0 == Window(cwMin, cwMax, BackoffCount(before)) && draw0 == (if fixed then 0 else Sum(before))
    ensures var used := before + [if acked then j + 1 else j];
      && Made(rates[..], used, acked, noack, draws, fixed, errorProb) && (!acked ==> j == rates[i].count)
      && sendTime == SendTime(rates[..], used, len, freq, noack, cwMin, cwMax) && retries == Sum(used)
      && (!acked ==> cw == Window(cwMin, cwMax, BackoffCount(used)) && draw == (if fixed then 0 else Sum(used)))
  {
    hide SendTime, Made, Window, AttemptTime, AckTime;
    sendTime, acked, retries, cw, draw, j := sendTime0, false, retries0, cw0, draw0, 0;
    var rateIdx := rates[i].idx;
    var prob := errorProb(rateIdx);
    OneMore(before, 0);
    MadeIndices(rates[..], before, false, noack, draws, fixed, errorProb);
    OneMoreTime(rates[..], before, 0, len, freq, noack, cwMin, cwMax);
    NextRateMade(rates[..], before, noack, draws, fixed, errorProb);
    while j < rates[i].count
      invariant j <= rates[i].count
      invariant Made(rates[..], before + [j], false, noack, draws, fixed, errorProb)
      invariant sendTime == SendTime(rates[..], before + [j], len, freq, noack, cwMin, cwMax) && retries == Sum(before + [j])
      invariant cw == Window(cwMin, cwMax, BackoffCount(before + [j])) && draw == if fixed then 0 else Sum(before + [j])
    {
      OneMore(before, j);
      OneMoreTime(rates[..], before, j, len, freq, noack, cwMin, cwMax);
      OneMoreMade(rates[..], before, j, noack || draws(draw) > prob, noack, draws, fixed, errorProb);
      sendTime := sendTime + AttemptTime(len, freq, rateIdx);
      retries := retries + 1;
      if noack {
        acked := true;
        break;
      }
      if j > 0 {
        sendTime := sendTime + BackoffTime(cw);
        WindowWidens(cwMin, cwMax, BackoffCount(before + [j]));
        cw := Widen(cw, cwMax);
      }
      sendTime := sendTime + AckTime(freq);
      if draws(draw) > prob {
        acked := true;
        break;
      }
      if !fixed {
        draw := draw + 1;
      }
      j := j + 1;
    }
  }

  lemma MadeIndices(rates: seq<TxRate>, used: seq<nat>, acked: bool, noack: bool, draws: nat -> real, fixed: bool, errorProb: int -> real)
    requires Made(rates, used, acked, noack, draws, fixed, errorProb)
    ensures |used| <= |rates| && forall k :: 0 <= k < |used| ==> rates[k].idx >= 0
  {
  }

  lemma MadeCounts(rates: seq<TxRate>, used: seq<nat>, acked: bool, noack: bool, draws: nat -> real, fixed: bool, errorProb: int -> real)
    requires Made(rates, used, acked, noack, draws, fixed, errorProb)
    ensures |used| <= |rates| && forall k :: 0 <= k < |used| ==> used[k] <= rates[k].count
  {
  }

  lemma NoAttempts(rates: seq<TxRate>, len: nat, freq: nat, noack: bool, cwMin: nat, cwMax: nat,
                   draws: nat -> real, fixed: bool, errorProb: int -> real)
    requires cwMin <= cwMax
    ensures Made(rates, [], false, noack, draws, fixed, errorProb)
    ensures SendTime(rates, [], len, freq, noack, cwMin, cwMax) == 0 && Sum([]) == 0
    ensures Window(cwMin, cwMax, BackoffCount([])) == cwMin
  {
  }

  lemma MadeFull(rates: seq<TxRate>, used: seq<nat>, noack: bool, draws: nat -> real, fixed: bool, errorProb: int -> real)
    requires Made(rates, used, true, noack, draws, fixed, errorProb)
    ensures forall k :: 0 <= k < |used| - 1 ==> used[k] == rates[k].count
  {
  }

  /** The retry loop of queue_frame and the rate report after it. */
  method Transmit(rates: array<TxRate>, len: nat, freq: nat, noack: bool, cwMin: nat, cwMax: nat,
                  draws: nat -> real, fixed: bool, errorProb: int -> real)
    returns (sendTime: int, acked: bool, retries: nat, ghost used: seq<nat>)
    requires cwMin <= cwMax
    modifies rates
    ensures Made(old(rates[..]), used, acked, noack, draws, fixed, errorProb)
    ensures !acked ==> Exhausted(old(rates[..]), used)
    ensures sendTime == SendTime(old(rates[..]), used, len, freq, noack, cwMin, cwMax)
    ensures retries == Sum(used)
    ensures rates[..] == Reported(old(rates[..]), used, acked)
    ensures acked ==>
      && |used| > 0 && retries > 0
      && (noack || draws(if fixed then 0 else retries - 1) > errorProb(old(rates[..])[|used| - 1].idx))
    ensures noack ==> retries == if acked then 1 else 0
    ensures |used| <= rates.Length && (!noack ==> forall k, j :: 0 <= k < |used| && 0 <= j < used[k] ==>
      (DrawFor(draws, fixed, used, k, j) > errorProb(old(rates[..])[k].idx) <==> acked && k == |used| - 1 && j == used[k] - 1))
    ensures |used| <= rates.Length && forall k :: 0 <= k < rates.Length ==>
      rates[k] == if !acked then old(rates[k]) else if k < |used| then TxRate(old(rates[k]).idx, used[k]) else TxRate(-1, 255)
  {
    hide SendTime, Made, Window, Sum, BackoffCount, Reported;
    ghost var was := rates[..];
    NoAttempts(was, len, freq, noack, cwMin, cwMax, draws, fixed, errorProb);
    var i, j, cw, draw := 0, 0, cwMin, 0;
    sendTime, acked, retries, used := 0, false, 0, [];
    while i < rates.Length && !acked
      invariant i == |used| <= rates.Length && rates[..] == was && forall k :: 0 <= k < i ==> was[k].idx >= 0
      invariant Made(was, used, acked, noack, draws, fixed, errorProb)
      invariant !acked ==> forall k :: 0 <= k < i ==> used[k] == was[k].count
      invariant sendTime == SendTime(was, used, len, freq, noack, cwMin, cwMax) && retries == Sum(used)
      invariant acked ==> i > 0 && used[i - 1] == j + 1
      invariant !acked ==> cw == Window(cwMin, cwMax, BackoffCount(used)) && draw == if fixed then 0 else Sum(used)
      modifies {}
      decreases rates.Length - i
    {
      if rates[i].idx < 0 { break; }
      sendTime, acked, retries, cw, draw, j := TryRate(rates, i, len, freq, noack, cwMin, cwMax, draws, fixed, errorProb, used, sendTime, retries, cw, draw);
      used := used + [if acked then j + 1 else j];
      i := i + 1;
    }
    if acked {
      MadeFull(was, used, noack, draws, fixed, errorProb);
      LastDrawDecides(was, used, noack, draws, fixed, errorProb);
      Report(rates, i, j, used);
    }
    if noack { AtMostOne(was, used, acked, draws, fixed, errorProb); } else { DrawsDecide(was, used, acked, draws, fixed, errorProb); }
    ReportedAt(was, used, acked);
  }

  /** The rate report after an acknowledgement at attempt j of rate i - 1. */
  method Report(rates: array<TxRate>, i: nat, j: nat, ghost used: seq<nat>)
    requires 0 < i == |used| <= rates.Length && used[i - 1] == j + 1
    requires forall k :: 0 <= k < i - 1 ==> used[k] == rates[k].count
    modifies rates
    ensures rates[..] == Reported(old(rates[..]), used, true)
  {
    ghost var was := rates[..];
    rates[i - 1] := rates[i - 1].(count := j + 1);
    var n := i;
    while n < rates.Length
      invariant i <= n <= rates.Length
      invariant forall k :: 0 <= k < i ==> rates[k] == was[k].(count := used[k])
      invariant forall k :: i <= k < n ==> rates[k] == TxRate(-1, 255)
    {
      rates[n] := TxRate(-1, 255);
      n := n + 1;
    }
  }

  // ---------- what follows from the closed form ----------

  /**
   * One more attempt at a rate adds 34 us and the frame's TXTIME; unless no acknowledgement is wanted,
   * also 16 us and the TXTIME of 14 bytes at the first rate, and, if it is not the first at this rate,
   * half the window in slots of 9 us, rounded down, after which the window is one backoff wider.
   */
  lemma EachAttemptAdds(rates: seq<TxRate>, before: seq<nat>, j: nat, len: nat, freq: nat, noack: bool, cwMin: nat, cwMax: nat)
    requires |before| < |rates| && forall k :: 0 <= k <= |before| ==> rates[k].idx >= 0
    ensures var frame, ack := PktDuration(len, IndexToRate(rates[|before|].idx, freq)), PktDuration(14, IndexToRate(0, freq));
      var n := BackoffCount(before + [j]);
      && SendTime(rates, before + [j + 1], len, freq, noack, cwMin, cwMax) - SendTime(rates, before + [j], len, freq, noack, cwMin, cwMax)
        == 34 + frame + (if noack then 0 else 16 + ack) + (if noack || j == 0 then 0 else 9 * Window(cwMin, cwMax, n) / 2)
      && BackoffCount(before + [j + 1]) == n + (if j == 0 then 0 else 1)
  {
    OneMoreTime(rates, before, j, len, freq, noack, cwMin, cwMax);
    OneMore(before, j);
    hide SendTime, PktDuration, Window, BackoffCount, IndexToRate, Sum;
  }

  /** Before the first attempt no time has passed and no backoff has been made; turning to another rate adds nothing to either. */
  lemma NextRateAdds(rates: seq<TxRate>, before: seq<nat>, len: nat, freq: nat, noack: bool, cwMin: nat, cwMax: nat)
    requires |before| < |rates| && forall k :: 0 <= k <= |before| ==> rates[k].idx >= 0
    ensures SendTime(rates, [], len, freq, noack, cwMin, cwMax) == 0 && BackoffCount([]) == 0
    ensures SendTime(rates, before + [0], len, freq, noack, cwMin, cwMax) == SendTime(rates, before, len, freq, noack, cwMin, cwMax)
    ensures BackoffCount(before + [0]) == BackoffCount(before)
  {
    OneMoreTime(rates, before, 0, len, freq, noack, cwMin, cwMax);
    OneMore(before, 0);
    assert Sum([]) == 0 && BackoffCount([]) == 0;
    hide Sum, BackoffCount;
  }

  /** Two attempts at the first rate: twice everything, and one backoff in between, from the smallest window. */
  lemma TwoAttempts(rates: seq<TxRate>, len: nat, freq: nat, cwMin: nat, cwMax: nat)
    requires rates != [] && rates[0].idx >= 0 && cwMin <= cwMax
    ensures SendTime(rates, [2], len, freq, false, cwMin, cwMax)
      == 2 * (34 + PktDuration(len, IndexToRate(rates[0].idx, freq)) + 16 + PktDuration(14, IndexToRate(0, freq))) + 9 * cwMin / 2
  {
    FirstAttempt(rates, len, freq, cwMin, cwMax);
    WindowWidens(cwMin, cwMax, 0);
    hide *;
    EachAttemptAdds(rates, [], 1, len, freq, false, cwMin, cwMax);
    assert [] + [1] == [1] && [] + [2] == [2];
  }

  lemma FirstAttempt(rates: seq<TxRate>, len: nat, freq: nat, cwMin: nat, cwMax: nat)
    requires rates != [] && rates[0].idx >= 0
    ensures SendTime(rates, [1], len, freq, false, cwMin, cwMax)
      == 34 + PktDuration(len, IndexToRate(rates[0].idx, freq)) + 16 + PktDuration(14, IndexToRate(0, freq))
    ensures BackoffCount([1]) == 0
  {
    hide *;
    NextRateAdds(rates, [], len, freq, false, cwMin, cwMax);
    EachAttemptAdds(rates, [], 0, len, freq, false, cwMin, cwMax);
    assert [] + [0] == [0] && [] + [1] == [1];
  }

  /** 100 bytes of best effort at 1 Mbit/s: 2 (34 + 844 + 16 + 156) us and a backoff of 67. */
  lemma SecondAttemptWaits()
    ensures SendTime([TxRate(0, 2)], [2], 100, 2412, false, 15, 1023) == 2167
  {
    assert IndexToRate(0, 2412) == 10 && PktDuration(100, 10) == 844 && PktDuration(14, 10) == 156;
    hide SendTime, IndexToRate, PktDuration;
    TwoAttempts([TxRate(0, 2)], 100, 2412, 15, 1023);
  }

  /** The random number drawn for attempt j at rate k: the one for all attempts, or that of its number among them. */
  function DrawFor(draws: nat -> real, fixed: bool, used: seq<nat>, k: nat, j: nat): real
    requires k <= |used|
  {
    draws(if fixed then 0 else Sum(used[..k]) + j)
  }

  /** Where acknowledgements are wanted, the attempt whose number exceeds the error probability is the last, and acknowledged. */
  lemma DrawsDecide(rates: seq<TxRate>, used: seq<nat>, acked: bool, draws: nat -> real, fixed: bool, errorProb: int -> real)
    requires Made(rates, used, acked, false, draws, fixed, errorProb)
    ensures |used| <= |rates| && forall k, j :: 0 <= k < |used| && 0 <= j < used[k] ==>
      (DrawFor(draws, fixed, used, k, j) > errorProb(rates[k].idx) <==> acked && k == |used| - 1 && j == used[k] - 1)
  {
    forall k, j | 0 <= k < |used| && 0 <= j < used[k]
      ensures DrawFor(draws, fixed, used, k, j) > errorProb(rates[k].idx) <==> acked && k == |used| - 1 && j == used[k] - 1
    {
      OutcomeAt(rates, used, acked, false, draws, fixed, errorProb, k, j);
    }
  }

  /** The random number an acknowledgement was decided by is the one drawn for the last attempt. */
  lemma LastDrawDecides(rates: seq<TxRate>, used: seq<nat>, noack: bool, draws: nat -> real, fixed: bool, errorProb: int -> real)
    requires Made(rates, used, true, noack, draws, fixed, errorProb)
    ensures used != [] && Sum(used) > 0
    ensures noack || draws(if fixed then 0 else Sum(used) - 1) > errorProb(rates[|used| - 1].idx)
  {
    var k := |used| - 1;
    OutcomeAt(rates, used, true, noack, draws, fixed, errorProb, k, used[k] - 1);
    hide Made, Sum, Earlier;
    AttemptsBefore(used);
  }

  lemma AttemptsBefore(used: seq<nat>)
    requires used != []
    ensures Earlier(used, |used| - 1) + used[|used| - 1] == Sum(used)
  {
  }

  lemma OutcomeAt(rates: seq<TxRate>, used: seq<nat>, acked: bool, noack: bool, draws: nat -> real, fixed: bool, errorProb: int -> real, k: nat, j: nat)
    requires Made(rates, used, acked, noack, draws, fixed, errorProb) && k < |used| && j < used[k]
    ensures Succeeds(rates, used, k, j, noack, draws, fixed, errorProb) <==> acked && k == |used| - 1 && j == used[k] - 1
  {
    hide Succeeds, Along;
  }

  /** Without acknowledgements there is one attempt, or none. */
  lemma {:induction false} AtMostOne(rates: seq<TxRate>, used: seq<nat>, acked: bool, draws: nat -> real, fixed: bool, errorProb: int -> real)
    requires Made(rates, used, acked, true, draws, fixed, errorProb)
    ensures Sum(used) == if acked then 1 else 0
  {
    forall k | 0 <= k < |used| ensures used[k] == if acked && k == |used| - 1 then 1 else 0 {
      if used[k] > 0 { OutcomeAt(rates, used, acked, true, draws, fixed, errorProb, k, 0); }
    }
    if used != [] { ZeroSum(used[..|used| - 1]); }
  }

  lemma {:induction false} ZeroSum(s: seq<nat>)
    requires forall k :: 0 <= k < |s| ==> s[k] == 0
    ensures Sum(s) == 0
  {
    if s != [] { ZeroSum(s[..|s| - 1]); }
  }

  function Counts(rates: seq<TxRate>): (r: seq<nat>)
    ensures |r| == |rates|
  {
    seq(|rates|, k requires 0 <= k < |rates| => rates[k].count)
  }

  /** The counts reported for the used rates are the attempts made, acknowledged or not. */
  lemma ReportedCounts(rates: seq<TxRate>, used: seq<nat>, acked: bool)
    requires |used| <= |rates| && (!acked ==> Exhausted(rates, used))
    ensures Counts(Reported(rates, used, acked)[..|used|]) == used
    ensures Sum(Counts(Reported(rates, used, acked)[..|used|])) == Sum(used)
  {
    assert Counts(Reported(rates, used, acked)[..|used|]) == used;
  }

  lemma PktDurationBound(len: nat, rate: int)
    requires len <= 65535 && rate >= 10
    ensures 0 <= PktDuration(len, rate) <= 524324
  {
    MulOrder(131076, 40, 4 * rate);
    assert 4 * rate * 131076 == 131076 * (4 * rate);
    PktDurationSymbols(len, rate, 131076);
    QuotientBounds((16 + 8 * len + 6) * 10 + 4 * rate - 1, 4 * rate);
    MulOrder(4 * rate, DivRound((16 + 8 * len + 6) * 10, 4 * rate), -1);
  }

  lemma {:induction false} SumBound(used: seq<nat>, top: nat)
    requires forall k :: 0 <= k < |used| ==> used[k] <= top
    ensures Sum(used) <= top * |used| && BackoffCount(used) <= Sum(used)
  {
    if used != [] {
      SumBound(used[..|used| - 1], top);
      assert top * |used| == top * (|used| - 1) + top;
    }
  }

  lemma {:induction false} AirBound(rates: seq<TxRate>, used: seq<nat>, len: nat, freq: nat)
    requires |used| <= |rates| && len <= 65535
    requires forall k :: 0 <= k < |used| ==> rates[k].idx >= 0
    ensures 0 <= Air(rates, used, len, freq) <= Times(Sum(used), 524358)
  {
    if used != [] {
      var k := |used| - 1;
      AirBound(rates, used[..k], len, freq);
      PktDurationBound(len, IndexToRate(rates[k].idx, freq));
      var d := AttemptTime(len, freq, rates[k].idx);
      TimesBound(used[k], d, 524358);
      assert Times(Sum(used), 524358) == Times(Sum(used[..k]), 524358) + Times(used[k], 524358);
      hide AttemptTime, Times, Sum;
    }
  }

  lemma {:induction false} BackoffsBound(cwMin: nat, cwMax: nat, n: nat)
    requires cwMin <= cwMax <= 1023
    ensures 0 <= Backoffs(cwMin, cwMax, n) <= 4603 * n
  {
    if n > 0 {
      BackoffsBound(cwMin, cwMax, n - 1);
      MulOrder(cwMin + 1, 1, Pow2(n - 1));
    }
  }

  /** For four rates, 8-bit counts and frames up to 65535 bytes, send_time is a non-negative 32-bit int. */
  lemma SendTimeFits(rates: seq<TxRate>, used: seq<nat>, len: nat, freq: nat, noack: bool, cwMin: nat, cwMax: nat)
    requires |used| <= |rates| <= 4 && len <= 65535 && cwMin <= cwMax <= 1023
    requires forall k :: 0 <= k < |used| ==> rates[k].idx >= 0 && used[k] <= rates[k].count <= 255
    ensures 0 <= SendTime(rates, used, len, freq, noack, cwMin, cwMax) < 0x8000_0000
  {
    SumBound(used, 255);
    AirBound(rates, used, len, freq);
    PktDurationBound(14, IndexToRate(0, freq));
    BackoffsBound(cwMin, cwMax, BackoffCount(used));
    var n, a := Sum(used), AckTime(freq);
    assert n <= 1020 && 0 <= a <= 524340;
    TimesBound(n, a, 524340);
  }
}
