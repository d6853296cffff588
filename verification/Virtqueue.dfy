/** A split virtqueue with free-running 16-bit indices: driver, device and the rings they share. */
module Virtqueue {
  import opened Common

  const WORD := 0x1_0000

  datatype Elem = Elem(id: nat, len: nat)

  /** The rings in shared memory, the device's last_avail_idx, and the driver's own place in the used ring. */
  datatype Queue = Queue(num: nat, avail: seq<nat>, availIdx: nat, used: seq<Elem>, usedIdx: nat, lastAvail: nat, lastUsed: nat)

  /** The ring slot an index selects. */
  function Slot(idx: nat, num: nat): (s: nat)
    requires num > 0
    ensures s < num
  {
    idx % num
  }

  function Bump(idx: nat): nat {
    (idx + 1) % WORD
  }

  predicate Shape(q: Queue) {
    && q.num > 0 && |q.avail| == q.num && |q.used| == q.num
    && q.availIdx < WORD && q.usedIdx < WORD && q.lastAvail < WORD && q.lastUsed < WORD
  }

  // The driver offers a chain by its head, and takes back what the device has used.

  function Post(q: Queue, head: nat): Queue
    requires Shape(q)
  {
    q.(avail := q.avail[Slot(q.availIdx, q.num) := head], availIdx := Bump(q.availIdx))
  }

  predicate Returned(q: Queue) {
    q.usedIdx != q.lastUsed
  }

  function NextReturned(q: Queue): Elem
    requires Shape(q)
  {
    q.used[Slot(q.lastUsed, q.num)]
  }

  function Collect(q: Queue): Queue {
    q.(lastUsed := Bump(q.lastUsed))
  }

  // The device's view of usfstl_vhost_user_get_virtq_buf and usfstl_vhost_user_send_virtq_buf.

  predicate Empty(q: Queue) {
    q.availIdx == q.lastAvail
  }

  function Head(q: Queue): nat
    requires Shape(q)
  {
    q.avail[Slot(q.lastAvail, q.num)]
  }

  function Take(q: Queue): Queue {
    q.(lastAvail := Bump(q.lastAvail))
  }

  function Publish(q: Queue, e: Elem): Queue
    requires Shape(q)
  {
    q.(used := q.used[Slot(q.usedIdx, q.num) := e], usedIdx := Bump(q.usedIdx))
  }

  // ---------- slots across wrap-around ----------

  /** The slot of the i-th entry ever, counted without wrap-around. */
  function Place(i: nat, num: nat): (s: nat)
    requires num > 0
    ensures s < num
  {
    Slot(i % WORD, num)
  }

  lemma BumpCounts(i: nat)
    ensures Bump(i % WORD) == (i + 1) % WORD
  {
  }

  lemma MultipleBelow(num: int, k: int)
    requires -num < num * k < num
    ensures k == 0
  {
    if k > 0 {
      Grows(num, 1, k);
      assert false;
    } else if k < 0 {
      Grows(num, k, -1);
      assert false;
    }
  }

  lemma Grows(num: int, j: int, k: int)
    requires num > 0 && j <= k
    ensures num * j <= num * k
  {
  }

  lemma DivideExact(a: nat, num: nat)
    requires num > 0
    ensures a == num * (a / num) + a % num
  {
  }

  lemma Gather(num: int, m: int, x: int, y: int)
    ensures num * x - num * y + num * m == num * (x - y + m)
  {
  }

  /** Two entries in one slot, less than a ring apart, are the same entry when the ring divides the index range. */
  lemma SameSlot(num: nat, i: nat, j: nat)
    requires num > 0 && WORD % num == 0 && i <= j < i + num && Place(i, num) == Place(j, num)
    ensures i == j
  {
    var a, b, m := i % WORD, j % WORD, WORD / num;
    DivideExact(a, num);
    DivideExact(b, num);
    DivideExact(WORD, num);
    assert num <= WORD;
    var wraps := j / WORD - i / WORD;
    assert wraps == 0 || wraps == 1;
    if wraps == 0 {
      assert j - i == b - a;
      Gather(num, 0, b / num, a / num);
      MultipleBelow(num, b / num - a / num);
    } else {
      assert j - i == b - a + WORD;
      Gather(num, m, b / num, a / num);
      MultipleBelow(num, b / num - a / num + m);
    }
  }

  ghost predicate SlotsApart(num: nat)
    requires num > 0
  {
    forall i: nat, j: nat :: i < j < i + num ==> Place(i, num) != Place(j, num)
  }

  /** A full ring's entries always have slots of their own exactly when the ring size divides 65536. */
  lemma SlotsApartExactly(num: nat)
    requires num > 0
    ensures SlotsApart(num) <==> WORD % num == 0
  {
    if WORD % num == 0 {
      forall i: nat, j: nat | i < j < i + num ensures Place(i, num) != Place(j, num) {
        if Place(i, num) == Place(j, num) { SameSlot(num, i, j); }
      }
    } else {
      var i := WORD - WORD % num;
      DivideExact(WORD, num);
      assert i == num * (WORD / num);
      MultipleSlot(num, WORD / num);
      assert Place(i, num) == 0 && Place(WORD, num) == 0;
    }
  }

  lemma MultipleSlot(num: nat, k: nat)
    requires num > 0
    ensures (num * k) % num == 0
  {
    var x := num * k;
    DivideExact(x, num);
    Gather(num, 0, k, x / num);
    MultipleBelow(num, k - x / num);
  }

  lemma SameCount(i: nat, j: nat)
    requires i <= j < i + WORD
    ensures i % WORD == j % WORD <==> i == j
  {
  }

  /** A completely full ring never looks empty exactly when it is smaller than the index range. */
  lemma FullIsNotEmpty(num: nat)
    requires num > 0
    ensures (forall i: nat, j: nat :: i < j <= i + num ==> i % WORD != j % WORD) <==> num < WORD
  {
    if num >= WORD {
      assert 0 % WORD == WORD % WORD;
    }
  }

  predicate Sized(num: nat) {
    0 < num < WORD && WORD % num == 0
  }

  // ---------- what a run keeps ----------

  /** A queue and everything that went through it. */
  datatype Trace = Trace(q: Queue, posted: seq<nat>, handled: seq<nat>, published: seq<Elem>, collected: seq<Elem>)

  /** The ring holds entries lo to hi of everything ever put into it. */
  ghost predicate Holds<T>(ring: seq<T>, all: seq<T>, lo: nat, hi: nat)
    requires |ring| > 0 && hi <= |all|
  {
    forall i :: lo <= i < hi ==> ring[Place(i, |ring|)] == all[i]
  }

  lemma HoldsNext<T>(ring: seq<T>, all: seq<T>, lo: nat, x: T)
    requires |ring| > 0 && WORD % |ring| == 0 && lo <= |all| < lo + |ring| && Holds(ring, all, lo, |all|)
    ensures Holds(ring[Place(|all|, |ring|) := x], all + [x], lo, |all| + 1)
  {
    forall i | lo <= i < |all| ensures Place(i, |ring|) != Place(|all|, |ring|) {
      if Place(i, |ring|) == Place(|all|, |ring|) { SameSlot(|ring|, i, |all|); }
    }
  }

  function Ids(es: seq<Elem>): (r: seq<nat>)
    ensures |r| == |es|
  {
    seq(|es|, i requires 0 <= i < |es| => es[i].id)
  }

  /** The four indices are the four counts, the rings hold what is in flight, and nothing overtakes. */
  ghost predicate Good(t: Trace) {
    && Shape(t.q) && Sized(t.q.num)
    && Counts(t)
    && Holds(t.q.avail, t.posted, |t.handled|, |t.posted|)
    && Holds(t.q.used, t.published, |t.collected|, |t.published|)
    && t.handled <= t.posted
    && Ids(t.published) <= t.handled
    && t.collected <= t.published
    && forall h :: h in t.posted ==> h < t.q.num
  }

  predicate Counts(t: Trace) {
    && t.q.availIdx == |t.posted| % WORD
    && t.q.lastAvail == |t.handled| % WORD
    && t.q.usedIdx == |t.published| % WORD
    && t.q.lastUsed == |t.collected| % WORD
    && |t.collected| <= |t.published| <= |t.handled| <= |t.posted| <= |t.collected| + t.q.num
  }

  /** Chains the driver has not got back yet. */
  function Outstanding(t: Trace): int {
    |t.posted| - |t.collected|
  }

  datatype Op = Offer(head: nat) | Accept | Return(len: nat) | Reclaim

  /** The driver offers valid heads, at most a ring's worth; the device holds at most one buffer at a time. */
  predicate Legal(t: Trace, op: Op)
    requires Shape(t.q)
  {
    match op
    case Offer(head) => head < t.q.num && Outstanding(t) < t.q.num
    case Accept => !Empty(t.q) && |t.handled| == |t.published|
    case Return(_) => |t.published| < |t.handled|
    case Reclaim => Returned(t.q)
  }

  function Step(t: Trace, op: Op): Trace
    requires Shape(t.q) && Legal(t, op)
  {
    match op
    case Offer(head) => t.(q := Post(t.q, head), posted := t.posted + [head])
    case Accept => t.(q := Take(t.q), handled := t.handled + [Head(t.q)])
    case Return(len) =>
      var e := Elem(t.handled[|t.published|], len);
      t.(q := Publish(t.q, e), published := t.published + [e])
    case Reclaim => t.(q := Collect(t.q), collected := t.collected + [NextReturned(t.q)])
  }

  /** The device's comparison of two wrapped indices finds exactly an empty queue. */
  lemma EmptyExactly(t: Trace)
    requires Good(t)
    ensures Empty(t.q) <==> |t.handled| == |t.posted|
    ensures Returned(t.q) <==> |t.collected| < |t.published|
  {
    hide Holds, Ids, Shape;
    SameCount(|t.handled|, |t.posted|);
    SameCount(|t.collected|, |t.published|);
  }

  /** The next head the device reads is the oldest one it has not handled; the assertion on its range holds. */
  lemma HeadIsOldest(t: Trace)
    requires Good(t) && !Empty(t.q)
    ensures |t.handled| < |t.posted| && Head(t.q) == t.posted[|t.handled|] && Head(t.q) < t.q.num
  {
    EmptyExactly(t);
    hide Ids;
    var n := |t.handled|;
    assert t.q.avail[Place(n, t.q.num)] == t.posted[n];
    assert t.posted[n] in t.posted;
    hide Holds;
  }

  /** An entry in flight is in its ring at its own number, counted modulo 65536 and then modulo the ring's size. */
  lemma InPlace(t: Trace, i: nat)
    requires Good(t)
    ensures |t.handled| <= i < |t.posted| ==> t.q.avail[i % 0x1_0000 % t.q.num] == t.posted[i]
    ensures |t.collected| <= i < |t.published| ==> t.q.used[i % 0x1_0000 % t.q.num] == t.published[i]
  {
    assert Place(i, t.q.num) == i % 0x1_0000 % t.q.num;
    hide Ids;
  }

  lemma OfferKeeps(t: Trace, head: nat)
    requires Good(t) && Legal(t, Offer(head))
    ensures Good(Step(t, Offer(head)))
  {
    HoldsNext(t.q.avail, t.posted, |t.handled|, head);
    BumpCounts(|t.posted|);
    hide Holds, Ids;
  }

  lemma AcceptKeeps(t: Trace)
    requires Good(t) && Legal(t, Accept)
    ensures Good(Step(t, Accept))
  {
    HeadIsOldest(t);
    BumpCounts(|t.handled|);
    hide Ids;
  }

  lemma ReturnKeeps(t: Trace, len: nat)
    requires Good(t) && Legal(t, Return(len))
    ensures Good(Step(t, Return(len)))
  {
    var e := Elem(t.handled[|t.published|], len);
    HoldsNext(t.q.used, t.published, |t.collected|, e);
    BumpCounts(|t.published|);
    assert Ids(t.published + [e]) == Ids(t.published) + [e.id];
    hide Holds;
  }

  lemma ReclaimKeeps(t: Trace)
    requires Good(t) && Legal(t, Reclaim)
    ensures Good(Step(t, Reclaim))
  {
    EmptyExactly(t);
    assert NextReturned(t.q) == t.published[|t.collected|];
    BumpCounts(|t.collected|);
    hide Ids;
  }

  lemma StepKeeps(t: Trace, op: Op)
    requires Good(t) && Legal(t, op)
    ensures Good(Step(t, op))
  {
    match op
    case Offer(head) => OfferKeeps(t, head);
    case Accept => AcceptKeeps(t);
    case Return(len) => ReturnKeeps(t, len);
    case Reclaim => ReclaimKeeps(t);
  }

  predicate LegalRun(t: Trace, ops: seq<Op>)
    requires Shape(t.q)
    decreases |ops|
  {
    ops == [] || (Legal(t, ops[0]) && Shape(Step(t, ops[0]).q) && LegalRun(Step(t, ops[0]), ops[1..]))
  }

  function Run(t: Trace, ops: seq<Op>): Trace
    requires Shape(t.q) && LegalRun(t, ops)
    decreases |ops|
  {
    if ops == [] then t else Run(Step(t, ops[0]), ops[1..])
  }

  function Offered(ops: seq<Op>): seq<nat> {
    if ops == [] then [] else (if ops[0].Offer? then [ops[0].head] else []) + Offered(ops[1..])
  }

  lemma {:induction false} RunKeeps(t: Trace, ops: seq<Op>)
    requires Good(t) && LegalRun(t, ops)
    ensures Good(Run(t, ops))
    decreases |ops|
  {
    if ops != [] {
      assert Good(Step(t, ops[0])) by { StepKeeps(t, ops[0]); }
      hide Good, Legal, Step;
      RunKeeps(Step(t, ops[0]), ops[1..]);
    }
  }

  lemma {:induction false} RunPosts(t: Trace, ops: seq<Op>)
    requires Shape(t.q) && LegalRun(t, ops)
    ensures Run(t, ops).posted == t.posted + Offered(ops)
    decreases |ops|
  {
    if ops != [] {
      var u, first := Step(t, ops[0]), if ops[0].Offer? then [ops[0].head] else [];
      assert u.posted == t.posted + first;
      hide Legal, Step, Shape;
      RunPosts(u, ops[1..]);
      assert (t.posted + first) + Offered(ops[1..]) == t.posted + (first + Offered(ops[1..]));
    }
  }

  /** Both sides set up the rings with every index 0. */
  predicate Fresh(q: Queue) {
    Shape(q) && Sized(q.num) && q.availIdx == 0 && q.usedIdx == 0 && q.lastAvail == 0 && q.lastUsed == 0
  }

  /**
   * Whatever the rings contained and however often the 16-bit indices wrap, the device handles the
   * offered heads in order, each once; it publishes the ids it handled in that order, and the driver
   * gets back exactly what was published, in that order.
   */
  lemma QueueIsFifo(q: Queue, ops: seq<Op>)
    requires Fresh(q) && LegalRun(Trace(q, [], [], [], []), ops)
    ensures var t := Run(Trace(q, [], [], [], []), ops);
      && t.posted == Offered(ops)
      && t.handled <= t.posted && Ids(t.published) <= t.handled && t.collected <= t.published
      && |t.handled| <= |t.posted| <= |t.collected| + q.num
  {
    var t := Trace(q, [], [], [], []);
    assert Good(t);
    RunKeeps(t, ops);
    RunPosts(t, ops);
    assert t.posted + Offered(ops) == Offered(ops);
    QueueKeepsSize(t, ops);
    hide Run, LegalRun, Holds;
  }

  lemma {:induction false} QueueKeepsSize(t: Trace, ops: seq<Op>)
    requires Shape(t.q) && LegalRun(t, ops)
    ensures Run(t, ops).q.num == t.q.num
    decreases |ops|
  {
    if ops != [] {
      QueueKeepsSize(Step(t, ops[0]), ops[1..]);
    }
  }

  // ---------- the device's loop over a queue ----------

  function Backlog(q: Queue): nat
    requires Shape(q)
  {
    if q.availIdx >= q.lastAvail then q.availIdx - q.lastAvail else q.availIdx + WORD - q.lastAvail
  }

  /** The queue after the device handled everything in it; the k-th buffer gets lens(k) bytes written. */
  function Drained(q: Queue, lens: nat -> nat, k: nat): Queue
    requires Shape(q)
    decreases Backlog(q)
  {
    if Empty(q) then q else Drained(Publish(Take(q), Elem(Head(q), lens(k))), lens, k + 1)
  }

  lemma ServeKeeps(t: Trace, len: nat)
    requires Good(t) && !Empty(t.q) && |t.handled| == |t.published|
    ensures Legal(t, Accept) && Legal(Step(t, Accept), Return(len))
    ensures var s := Step(Step(t, Accept), Return(len));
      Good(s) && s.q == Publish(Take(t.q), Elem(Head(t.q), len)) && |s.handled| == |s.published| == |t.handled| + 1
      && s.posted == t.posted && s.collected == t.collected && s.published == t.published + [Elem(Head(t.q), len)]
  {
    AcceptKeeps(t);
    HeadIsOldest(t);
    ReturnKeeps(Step(t, Accept), len);
    hide Good;
  }

  /** Between buffers the used index and last_avail_idx stay equal, if they start so. */
  lemma IndicesAgree(t: Trace)
    requires Good(t) && |t.handled| == |t.published|
    ensures t.q.usedIdx == t.q.lastAvail
  {
    hide Holds, Ids;
  }

  /**
   * Draining a queue handles every posted head once and in order, publishes exactly their ids, each
   * with the length written to its buffer, and leaves last_avail_idx and the used index equal.
   */
  lemma {:induction false} DrainedHandlesAll(t: Trace, lens: nat -> nat, k: nat) returns (s: Trace)
    requires Good(t) && |t.handled| == |t.published|
    ensures Good(s) && s.q == Drained(t.q, lens, k)
    ensures s.posted == t.posted == s.handled == Ids(s.published) && s.q.usedIdx == s.q.lastAvail == s.q.availIdx
    ensures t.published <= s.published && s.collected == t.collected
    ensures forall j :: |t.published| <= j < |s.published| ==> s.published[j].len == lens(k + j - |t.published|)
    decreases |t.posted| - |t.handled|
  {
    if Empty(t.q) {
      s := t;
      EmptyExactly(t);
      hide Holds;
    } else {
      ServeKeeps(t, lens(k));
      HeadIsOldest(t);
      hide Good;
      s := DrainedHandlesAll(Step(Step(t, Accept), Return(lens(k))), lens, k + 1);
    }
  }
}
