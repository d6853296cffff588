/** The device's side of its virtqueues: taking buffers, handing them back, kicks and the interrupt job. */
module VirtqDevice {
  import opened Common
  import opened Virtqueue
  import opened Gather
  import Iov
  import Kicks

  const SG_STACK_PREALLOC: nat := 5

  datatype Virtq = Virtq(enabled: bool, triggered: bool, queue: Queue, descs: seq<Desc>)

  /** One call of the server's handler. */
  datatype Request = Request(v: nat, head: nat, ins: seq<Iovec>, outs: seq<Iovec>)

  /** The heads waiting in a queue, oldest first. */
  function Pending(q: Queue): (heads: seq<nat>)
    requires Shape(q)
    decreases Backlog(q)
  {
    if Empty(q) then [] else [Head(q)] + Pending(Take(q))
  }

  lemma {:induction false} PendingPublish(q: Queue, e: Elem)
    requires Shape(q)
    ensures Pending(Publish(q, e)) == Pending(q)
    decreases Backlog(q)
  {
    if !Empty(q) {
      PendingPublish(Take(q), e);
      assert Take(Publish(q, e)) == Publish(Take(q), e);
    }
  }

  /** What the device may rely on: each waiting head is in the table and starts a chain that ends. */
  predicate Servable(x: Virtq) {
    && Shape(x.queue) && |x.descs| == x.queue.num
    && forall h :: h in Pending(x.queue) ==> ChainOf(x.descs, h).Some?
  }

  lemma ServableNext(x: Virtq, e: Elem)
    requires Servable(x) && !Empty(x.queue)
    ensures ChainOf(x.descs, Head(x.queue)).Some?
    ensures Servable(x.(queue := Take(x.queue))) && Servable(x.(queue := Publish(Take(x.queue), e)))
    ensures Pending(x.queue) == [Head(x.queue)] + Pending(Publish(Take(x.queue), e))
  {
    PendingPublish(Take(x.queue), e);
    var h, rest := Head(x.queue), Pending(Take(x.queue));
    assert Pending(x.queue) == [h] + rest && h in Pending(x.queue);
    hide Pending, ChainOf;
  }

  function RequestFor(descs: seq<Desc>, v: nat, head: nat, va: nat -> nat): Request
    requires ChainOf(descs, head).Some?
  {
    var c := ChainOf(descs, head).value;
    Request(v, head, Vectors(c, true, va), Vectors(c, false, va))
  }

  /** The handler is called once per waiting head, in order, with the head's chain. */
  function Requests(descs: seq<Desc>, v: nat, heads: seq<nat>, va: nat -> nat): seq<Request>
    requires forall h :: h in heads ==> ChainOf(descs, h).Some?
  {
    if heads == [] then [] else [RequestFor(descs, v, heads[0], va)] + Requests(descs, v, heads[1..], va)
  }

  lemma RequestsCons(descs: seq<Desc>, v: nat, h: nat, heads: seq<nat>, va: nat -> nat)
    requires forall k :: k in [h] + heads ==> ChainOf(descs, k).Some?
    ensures ChainOf(descs, h).Some? && forall k :: k in heads ==> ChainOf(descs, k).Some?
    ensures Requests(descs, v, [h] + heads, va) == [RequestFor(descs, v, h, va)] + Requests(descs, v, heads, va)
  {
    hide RequestFor, ChainOf;
    var all := [h] + heads;
    assert all[0] == h && all[0] in all;
    assert all[1..] == heads;
    forall k | k in heads ensures k in all {}
  }

  /** The call is for this head of queue v, with the segments of the head's chain, as the descriptor table has them. */
  ghost predicate Serves(descs: seq<Desc>, v: nat, head: nat, r: Request, va: nat -> nat) {
    r.v == v && r.head == head && SplitsChain(descs, head, r.ins, r.outs, va)
  }

  /** The calls are for these heads, one each and in order. */
  ghost predicate ServesAll(descs: seq<Desc>, v: nat, heads: seq<nat>, calls: seq<Request>, va: nat -> nat) {
    |calls| == |heads| && forall k :: 0 <= k < |calls| ==> Serves(descs, v, heads[k], calls[k], va)
  }

  lemma {:induction false} RequestsServe(descs: seq<Desc>, v: nat, heads: seq<nat>, va: nat -> nat)
    requires forall h :: h in heads ==> ChainOf(descs, h).Some?
    ensures ServesAll(descs, v, heads, Requests(descs, v, heads, va), va)
  {
    if heads != [] {
      ChainIsSplit(descs, heads[0], va);
      RequestsServe(descs, v, heads[1..], va);
      hide ChainOf, SplitsChain, Vectors;
      assert Serves(descs, v, heads[0], RequestFor(descs, v, heads[0], va), va);
    }
  }

  /** The calls for one queue. */
  function OfQueue(calls: seq<Request>, v: nat): seq<Request> {
    if calls == [] then []
    else if calls[0].v == v then [calls[0]] + OfQueue(calls[1..], v)
    else OfQueue(calls[1..], v)
  }

  /**
   * The interrupt job's calls go through the queues in order; each triggered queue's waiting heads are
   * served, and nothing else.
   */
  ghost predicate ServesQueues(xs: seq<Virtq>, calls: seq<Request>, va: nat -> nat)
    requires forall i :: 0 <= i < |xs| ==> Shape(xs[i].queue)
  {
    && (forall j, k :: 0 <= j < k < |calls| ==> calls[j].v <= calls[k].v)
    && (forall k :: 0 <= k < |calls| ==> calls[k].v < |xs|)
    && (forall v :: 0 <= v < |xs| ==>
         ServesAll(xs[v].descs, v, if xs[v].triggered then Pending(xs[v].queue) else [], OfQueue(calls, v), va))
  }

  lemma {:induction false} OfQueueConcat(a: seq<Request>, b: seq<Request>, v: nat)
    ensures OfQueue(a + b, v) == OfQueue(a, v) + OfQueue(b, v)
  {
    if a == [] {
      assert a + b == b;
    } else {
      assert (a + b)[1..] == a[1..] + b;
      OfQueueConcat(a[1..], b, v);
    }
  }

  lemma {:induction false} OfOneQueue(calls: seq<Request>, u: nat, v: nat)
    requires forall k :: 0 <= k < |calls| ==> calls[k].v == u
    ensures OfQueue(calls, v) == if u == v then calls else []
  {
    if calls != [] {
      assert calls[0].v == u;
      OfOneQueue(calls[1..], u, v);
    }
  }

  lemma ServedServe(x: Virtq, v: nat, va: nat -> nat)
    requires Servable(x)
    ensures ServesAll(x.descs, v, if x.triggered then Pending(x.queue) else [], ServedRequests(x, v, va), va)
    ensures forall k :: 0 <= k < |ServedRequests(x, v, va)| ==> ServedRequests(x, v, va)[k].v == v
  {
    if x.triggered { RequestsServe(x.descs, v, Pending(x.queue), va); }
    hide ChainOf, SplitsChain, Pending, Requests;
  }

  lemma {:induction false} CallsInOrder(xs: seq<Virtq>, v: nat, va: nat -> nat)
    requires v <= |xs| && forall i :: 0 <= i < |xs| ==> Servable(xs[i])
    ensures var calls := CallsFrom(xs, v, va);
      && (forall j, k :: 0 <= j < k < |calls| ==> calls[j].v <= calls[k].v)
      && (forall k :: 0 <= k < |calls| ==> v <= calls[k].v < |xs|)
    decreases |xs| - v
  {
    if v < |xs| {
      CallsInOrder(xs, v + 1, va);
      ServedServe(xs[v], v, va);
      CallsUnfold(xs, v, va);
      hide *;
    }
  }

  lemma {:induction false} CallsOfQueue(xs: seq<Virtq>, v: nat, u: nat, va: nat -> nat)
    requires v <= |xs| && u < |xs| && forall i :: 0 <= i < |xs| ==> Servable(xs[i])
    ensures OfQueue(CallsFrom(xs, v, va), u) == if v <= u then ServedRequests(xs[u], u, va) else []
    decreases |xs| - v
  {
    hide Servable, ServedRequests, Pending, Requests;
    if v < |xs| {
      CallsOfQueue(xs, v + 1, u, va);
      ServedServe(xs[v], v, va);
      CallsUnfold(xs, v, va);
      hide *;
      SplitOff(ServedRequests(xs[v], v, va), CallsFrom(xs, v + 1, va), v, u);
    } else {
      assert CallsFrom(xs, v, va) == [];
    }
  }

  lemma SplitOff(first: seq<Request>, rest: seq<Request>, v: nat, u: nat)
    requires forall k :: 0 <= k < |first| ==> first[k].v == v
    ensures OfQueue(first + rest, u) == if u == v then first + OfQueue(rest, u) else OfQueue(rest, u)
    ensures u == v && OfQueue(rest, u) == [] ==> OfQueue(first + rest, u) == first
  {
    OfQueueConcat(first, rest, u);
    OfOneQueue(first, v, u);
    hide OfQueue;
    assert first + [] == first && [] + OfQueue(rest, u) == OfQueue(rest, u);
  }

  lemma AllShaped(xs: seq<Virtq>)
    requires forall i :: 0 <= i < |xs| ==> Servable(xs[i])
    ensures forall i :: 0 <= i < |xs| ==> Shape(xs[i].queue)
  {
  }

  lemma AllCallsServe(xs: seq<Virtq>, va: nat -> nat)
    requires forall i :: 0 <= i < |xs| ==> Servable(xs[i])
    ensures forall i :: 0 <= i < |xs| ==> Shape(xs[i].queue)
    ensures ServesQueues(xs, CallsFrom(xs, 0, va), va)
  {
    AllShaped(xs);
    CallsInOrder(xs, 0, va);
    hide Servable, Shape, ServesAll, OfQueue, CallsFrom, Pending, ServedRequests;
    forall v | 0 <= v < |xs|
      ensures ServesAll(xs[v].descs, v, if xs[v].triggered then Pending(xs[v].queue) else [], OfQueue(CallsFrom(xs, 0, va), v), va)
    {
      CallsOfQueue(xs, 0, v, va);
      ServedServe(xs[v], v, va);
    }
  }

  /** A queue as the interrupt job leaves it. */
  function Served(x: Virtq, lens: nat -> nat): Virtq
    requires Shape(x.queue)
  {
    if x.triggered then x.(triggered := false, queue := Drained(x.queue, lens, 0)) else x
  }

  /** Each triggered queue is emptied and no longer triggered; nothing else has changed. */
  ghost predicate Emptied(was: seq<Virtq>, xs: seq<Virtq>, lens: nat -> (nat -> nat))
    requires forall v :: 0 <= v < |was| ==> Shape(was[v].queue)
  {
    && |xs| == |was|
    && forall v :: 0 <= v < |xs| ==>
         if was[v].triggered then xs[v] == was[v].(triggered := false, queue := Drained(was[v].queue, lens(v), 0)) else xs[v] == was[v]
  }

  lemma ServedIsEmptied(was: seq<Virtq>, xs: seq<Virtq>, lens: nat -> (nat -> nat))
    requires |xs| == |was| && forall v :: 0 <= v < |xs| ==> Shape(was[v].queue) && xs[v] == Served(was[v], lens(v))
    ensures Emptied(was, xs, lens)
  {
    hide Drained, Shape;
  }

  function ServedRequests(x: Virtq, v: nat, va: nat -> nat): seq<Request>
    requires Servable(x)
  {
    if x.triggered then Requests(x.descs, v, Pending(x.queue), va) else []
  }

  /** The interrupt job's calls for queues v and up. */
  function CallsFrom(xs: seq<Virtq>, v: nat, va: nat -> nat): seq<Request>
    requires v <= |xs| && forall i :: 0 <= i < |xs| ==> Servable(xs[i])
    decreases |xs| - v
  {
    if v == |xs| then [] else ServedRequests(xs[v], v, va) + CallsFrom(xs, v + 1, va)
  }

  // The loop over a queue: x is the queue at its start, y the queue now.

  ghost predicate Emptying(x: Virtq, y: Virtq, v: nat, calls: seq<Request>, lens: nat -> nat, va: nat -> nat) {
    && Servable(x) && Servable(y) && y == x.(queue := y.queue)
    && Drained(y.queue, lens, |calls|) == Drained(x.queue, lens, 0)
    && calls + Requests(y.descs, v, Pending(y.queue), va) == Requests(x.descs, v, Pending(x.queue), va)
  }

  ghost function Remaining(x: Virtq): nat {
    if Shape(x.queue) then Backlog(x.queue) else 0
  }

  lemma EmptyingStarts(x: Virtq, v: nat, lens: nat -> nat, va: nat -> nat)
    requires Servable(x)
    ensures Emptying(x, x, v, [], lens, va)
  {
    hide Requests, Pending, Drained, ChainOf;
    assert [] + Requests(x.descs, v, Pending(x.queue), va) == Requests(x.descs, v, Pending(x.queue), va);
  }

  lemma RemainingFalls(y: Virtq, e: Elem)
    requires Shape(y.queue) && !Empty(y.queue)
    ensures Remaining(y.(queue := Publish(Take(y.queue), e))) < Remaining(y)
  {
  }

  lemma EmptyingStep(x: Virtq, y: Virtq, v: nat, calls: seq<Request>, lens: nat -> nat, va: nat -> nat)
    requires Emptying(x, y, v, calls, lens, va) && !Empty(y.queue)
    ensures Servable(y) && ChainOf(y.descs, Head(y.queue)).Some?
    ensures var z := y.(queue := Publish(Take(y.queue), Elem(Head(y.queue), lens(|calls|))));
      Emptying(x, z, v, calls + [RequestFor(y.descs, v, Head(y.queue), va)], lens, va) && Remaining(z) < Remaining(y)
  {
    var e := Elem(Head(y.queue), lens(|calls|));
    var q := Publish(Take(y.queue), e);
    ServableShape(y);
    RemainingFalls(y, e);
    hide Remaining;
    ServableNext(y, e);
    assert Drained(y.queue, lens, |calls|) == Drained(q, lens, |calls| + 1);
    hide Shape, Pending, Drained, ChainOf, RequestFor, Take, Publish;
    RequestsCons(y.descs, v, e.id, Pending(q), va);
    hide Requests;
    var r, rest := RequestFor(y.descs, v, e.id, va), Requests(y.descs, v, Pending(q), va);
    assert (calls + [r]) + rest == calls + ([r] + rest);
  }

  lemma EmptyingEnds(x: Virtq, y: Virtq, v: nat, calls: seq<Request>, lens: nat -> nat, va: nat -> nat)
    requires Emptying(x, y, v, calls, lens, va) && Empty(y.queue)
    ensures y == x.(queue := Drained(x.queue, lens, 0)) && calls == Requests(x.descs, v, Pending(x.queue), va)
  {
    assert Pending(y.queue) == [] && calls + [] == calls;
    hide Servable, ChainOf;
  }

  lemma CallsUnfold(xs: seq<Virtq>, v: nat, va: nat -> nat)
    requires v < |xs| && forall i :: 0 <= i < |xs| ==> Servable(xs[i])
    ensures CallsFrom(xs, v, va) == ServedRequests(xs[v], v, va) + CallsFrom(xs, v + 1, va)
  {
    hide Servable, ServedRequests;
  }

  lemma Associates(a: seq<Request>, b: seq<Request>, c: seq<Request>)
    ensures (a + b) + c == a + (b + c)
  {
  }

  lemma CallsStep(xs: seq<Virtq>, v: nat, va: nat -> nat, calls: seq<Request>)
    requires v < |xs| && forall i :: 0 <= i < |xs| ==> Servable(xs[i])
    ensures (calls + ServedRequests(xs[v], v, va)) + CallsFrom(xs, v + 1, va) == calls + CallsFrom(xs, v, va)
  {
    hide Servable, ServedRequests, CallsFrom;
    CallsUnfold(xs, v, va);
    Associates(calls, ServedRequests(xs[v], v, va), CallsFrom(xs, v + 1, va));
  }

  lemma CallsEnd(xs: seq<Virtq>, va: nat -> nat, calls: seq<Request>)
    requires forall i :: 0 <= i < |xs| ==> Servable(xs[i])
    ensures calls + CallsFrom(xs, |xs|, va) == calls
  {
    assert CallsFrom(xs, |xs|, va) == [];
    hide Servable, CallsFrom;
  }

  /** The oldest waiting chain has only device-writable segments, at least one, all in memory. */
  predicate Receives(x: Virtq, va: nat -> nat, size: nat)
    requires Shape(x.queue)
  {
    var c := ChainOf(x.descs, Head(x.queue));
    && c.Some? && Vectors(c.value, true, va) != [] && Vectors(c.value, false, va) == []
    && Iov.InMemory(Vectors(c.value, true, va), size)
  }

  /** The segments received data goes to. */
  function Segments(x: Virtq, va: nat -> nat): seq<Iovec>
    requires Shape(x.queue) && ChainOf(x.descs, Head(x.queue)).Some?
  {
    Vectors(ChainOf(x.descs, Head(x.queue)).value, true, va)
  }

  /** The queue after data of a length was received. */
  function Notified(x: Virtq, len: nat): Virtq
    requires Shape(x.queue)
  {
    x.(queue := Publish(Take(x.queue), Elem(Head(x.queue), len)))
  }

  /** The element the device put into the used ring last. */
  function LastUsed(x: Virtq, before: Virtq): Elem
    requires Shape(before.queue) && Shape(x.queue) && x.queue.num == before.queue.num
  {
    x.queue.used[Slot(before.queue.usedIdx, x.queue.num)]
  }

  /**
   * Reading as many bytes from the segments as the data has gives that many, and, unless the segments
   * overlap where the data went, gives the data, exactly when the segments have room for it.
   */
  ghost predicate ReadsBackExactly(mem: seq<byte>, ins: seq<Iovec>, data: seq<byte>)
    requires Iov.InMemory(ins, |mem|)
  {
    var read := Iov.Gathered(mem, ins, |data|);
    && (|read| == |data| <==> |data| <= Iov.Total(ins))
    && (Iov.Apart(ins, |data|) ==> (read == data <==> |data| <= Iov.Total(ins)))
  }

  lemma FilledReadsBack(mem: seq<byte>, ins: seq<Iovec>, data: seq<byte>)
    requires Iov.InMemory(ins, |mem|)
    ensures ReadsBackExactly(Iov.Filled(mem, ins, data), ins, data)
  {
    hide Iov.Filled, Iov.Gathered, Iov.Total, Iov.Apart, Iov.InMemory;
    if Iov.Apart(ins, |data|) {
      Iov.RoundTrip(mem, ins, data, |data|);
      assert |data| <= Iov.Total(ins) ==> data[..|data|] == data;
    }
  }

  /**
   * The length handed back is the number of bytes in the segments exactly when the segments have room
   * for the data; and, unless the segments overlap where the data goes, exactly then does the driver
   * find the data when it reads that many bytes.
   */
  lemma ReceivedLengthExact(x: Virtq, va: nat -> nat, mem: seq<byte>, data: seq<byte>)
    requires Shape(x.queue) && Receives(x, va, |mem|)
    ensures var ins, y := Segments(x, va), Notified(x, |data|);
      var read := Iov.Gathered(Iov.Filled(mem, ins, data), ins, LastUsed(y, x).len);
      && LastUsed(y, x) == Elem(Head(x.queue), |data|)
      && (|read| == LastUsed(y, x).len <==> |data| <= Iov.Total(ins))
      && (Iov.Apart(ins, |data|) ==> (read == data <==> |data| <= Iov.Total(ins)))
  {
    var ins := Segments(x, va);
    assert LastUsed(Notified(x, |data|), x) == Elem(Head(x.queue), |data|);
    hide Iov.Filled, Iov.Gathered, Iov.Total, Iov.Apart, Shape, Receives, Segments, Notified, LastUsed, Vectors, ChainOf;
    ReceivesInMemory(x, va, |mem|);
    FilledReadsBack(mem, ins, data);
  }

  lemma ReceivesInMemory(x: Virtq, va: nat -> nat, size: nat)
    requires Shape(x.queue) && Receives(x, va, size)
    ensures ChainOf(x.descs, Head(x.queue)).Some? && Iov.InMemory(Segments(x, va), size)
  {
  }

  /** A buffer with one segment of one byte. */
  function ShortBuffer(): Virtq {
    Virtq(true, false, Queue(1, [0], 1, [Elem(0, 0)], 0, 0, 0), [Desc(0, 1, true, false, 0)])
  }

  /** Two bytes received into one: one is there, and the driver is told of two. */
  lemma ShortBufferTellsTooMuch(data: seq<byte>)
    requires |data| == 2
    ensures var x, id := ShortBuffer(), (a: nat) => a;
      && Shape(x.queue) && Servable(x) && Receives(x, id, 1) && Segments(x, id) == [Iovec(0, 1)]
      && LastUsed(Notified(x, 2), x) == Elem(0, 2)
      && Iov.Gathered(Iov.Filled([0], [Iovec(0, 1)], data), [Iovec(0, 1)], 2) == data[..1]
  {
    var x, id := ShortBuffer(), (a: nat) => a;
    var c := [x.descs[0]];
    assert Indices(1) == {0};
    assert ChainOf(x.descs, 0) == Some(c);
    assert c[..0] == [] && Vectors(c, true, id) == [Iovec(0, 1)] && Vectors(c, false, id) == [];
    assert Head(x.queue) == 0 && Take(x.queue).lastAvail == 1 && Pending(Take(x.queue)) == [];
    assert Pending(x.queue) == [0] + [];
    hide ChainOf, Vectors, Pending;
    var sg := [Iovec(0, 1)];
    assert sg[..0] == [] && Iov.Total(sg) == 1;
    hide Iov.Total;
    assert Iov.InMemory(sg, 1);
    ReceivedLengthExact(x, id, [0], data);
    Iov.RoundTrip([0], sg, data, 2);
    hide Iov.Filled, Iov.Gathered;
  }

  class Device {
    const server: Kicks.Server
    const va: nat -> nat
    const virtqs: array<Virtq>
    /** The interrupt job: whether it is scheduled, and its start. */
    var scheduled: bool
    var start: int

    ghost predicate Valid()
      reads virtqs
    {
      forall v :: 0 <= v < virtqs.Length ==> Servable(virtqs[v])
    }

    constructor (server: Kicks.Server, va: nat -> nat, queues: seq<Virtq>)
      ensures virtqs[..] == queues && !scheduled && this.server == server && this.va == va && fresh(virtqs)
    {
      this.server, this.va := server, va;
      virtqs := new Virtq[|queues|](i requires 0 <= i < |queues| => queues[i]);
      scheduled, start := false, 0;
    }

    /** The oldest waiting buffer, gathered, or null when there is none. */
    method GetVirtqBuf(v: nat, fixed: Buf) returns (buf: Buf?)
      requires v < virtqs.Length && Servable(virtqs[v]) && fixed.Valid()
      modifies virtqs, fixed, fixed.inSg, fixed.outSg
      ensures var x := old(virtqs[v]);
        if Empty(x.queue) then buf == null && virtqs[..] == old(virtqs[..])
        else
          && buf != null && virtqs[..] == old(virtqs[..])[v := x.(queue := Take(x.queue))]
          && ChainOf(x.descs, Head(x.queue)).Some?
          && buf.Filled(ChainOf(x.descs, Head(x.queue)).value, va) && buf.idx == Head(x.queue)
          && SplitsChain(x.descs, Head(x.queue), buf.inSg[..buf.nIn], buf.outSg[..buf.nOut], va)
      ensures fixed.Valid() && fixed.nIn <= old(fixed.nIn) && fixed.nOut <= old(fixed.nOut)
      ensures buf == null || buf == fixed || (fresh(buf) && fresh(buf.inSg))
    {
      var x := virtqs[v];
      if Empty(x.queue) {
        return null;
      }
      ServableNext(x, Elem(0, 0));
      hide Pending, ChainOf, Servable;
      var idx := x.queue.lastAvail;
      virtqs[v] := x.(queue := x.queue.(lastAvail := Bump(idx)));
      var descIdx := x.queue.avail[idx % x.queue.num];
      buf := GatherChain(x.descs, descIdx, va, fixed);
    }

    method SendVirtqBuf(v: nat, buf: Buf)
      requires v < virtqs.Length && Shape(virtqs[v].queue)
      modifies virtqs
      ensures virtqs[..]
        == old(virtqs[..])[v := old(virtqs[v]).(queue := Publish(old(virtqs[v]).queue, Elem(buf.idx, buf.written)))]
    {
      var q := virtqs[v].queue;
      var idx, widx := q.usedIdx, q.usedIdx + 1;
      idx := idx % q.num;
      virtqs[v] := virtqs[v].(queue := q.(used := q.used[idx := Elem(buf.idx, buf.written)], usedIdx := widx % WORD));
    }

    /** One buffer: taken, handled with len bytes written, and handed back. */
    method ServeOne(v: nat, fixed: Buf, len: nat) returns (r: Request)
      requires v < virtqs.Length && Servable(virtqs[v]) && fixed.Valid() && !Empty(virtqs[v].queue)
      modifies virtqs, fixed, fixed.inSg, fixed.outSg
      ensures fixed.Valid()
      ensures var x := old(virtqs[v]);
        && ChainOf(x.descs, Head(x.queue)).Some? && r == RequestFor(x.descs, v, Head(x.queue), va)
        && virtqs[..] == old(virtqs[..])[v := x.(queue := Publish(Take(x.queue), Elem(Head(x.queue), len)))]
    {
      hide ChainOf, Servable, Vectors;
      assert Shape(virtqs[v].queue) by { ServableShape(virtqs[v]); }
      var buf := GetVirtqBuf(v, fixed);
      r := Request(v, buf.idx, buf.inSg[..buf.nIn], buf.outSg[..buf.nOut]);
      buf.written := len;
      SendVirtqBuf(v, buf);
    }

    /**
     * usfstl_vhost_user_handle_queue; the k-th buffer gets lens(k) bytes written. The handler is called
     * with the k-th waiting head's chain, its device-writable segments apart from the others.
     */
    method HandleQueue(v: nat, lens: nat -> nat) returns (calls: seq<Request>)
      requires v < virtqs.Length && Servable(virtqs[v])
      modifies virtqs
      ensures virtqs[..] == old(virtqs[..])[v := old(virtqs[v]).(queue := Drained(old(virtqs[v]).queue, lens, 0))]
      ensures calls == Requests(old(virtqs[v]).descs, v, Pending(old(virtqs[v]).queue), va)
      ensures ServesAll(old(virtqs[v]).descs, v, Pending(old(virtqs[v]).queue), calls, va)
    {
      var fixed := new Buf(SG_STACK_PREALLOC, SG_STACK_PREALLOC, false);
      calls := [];
      ghost var x := virtqs[v];
      EmptyingStarts(x, v, lens, va);
      RequestsServe(x.descs, v, Pending(x.queue), va);
      hide Emptying, Servable, ChainOf, Pending, Drained, RequestFor, ServesAll, Requests;
      while !Empty(virtqs[v].queue)
        invariant fixed.Valid() && fresh(fixed) && fresh(fixed.inSg) && fresh(fixed.outSg)
        invariant virtqs[..] == old(virtqs[..])[v := virtqs[v]]
        invariant Emptying(x, virtqs[v], v, calls, lens, va)
        decreases Remaining(virtqs[v])
      {
        EmptyingStep(x, virtqs[v], v, calls, lens, va);
        var r := ServeOne(v, fixed, lens(|calls|));
        calls := calls + [r];
      }
      EmptyingEnds(x, virtqs[v], v, calls, lens, va);
    }

    /** Three objects; the verifier does not derive it from the types. */
    predicate Apart(mem: array<byte>, data: array<byte>) {
      mem != data && mem as object != virtqs as object && data as object != virtqs as object
    }

    /**
     * usfstl_vhost_user_dev_notify: the data is copied into the oldest waiting buffer's segments. The
     * length handed back is that of the data: the driver finds that many bytes there, and finds the
     * data, exactly when the segments have room for it.
     */
    method DevNotify(v: nat, mem: array<byte>, data: array<byte>) returns (sent: bool)
      requires v < virtqs.Length && Servable(virtqs[v]) && Apart(mem, data)
      requires virtqs[v].enabled && !Empty(virtqs[v].queue) ==> Receives(virtqs[v], va, mem.Length)
      modifies virtqs, mem
      ensures var x := old(virtqs[v]);
        && sent == (x.enabled && !Empty(x.queue))
        && (!sent ==> virtqs[..] == old(virtqs[..]) && mem[..] == old(mem[..]))
        && (sent ==>
             && ChainOf(x.descs, Head(x.queue)).Some?
             && var ins := Segments(x, va);
             && Iov.InMemory(ins, mem.Length) && mem[..] == Iov.Filled(old(mem[..]), ins, data[..])
             && virtqs[..] == old(virtqs[..])[v := Notified(x, data.Length)] && LastUsed(virtqs[v], x) == Elem(Head(x.queue), data.Length)
             && ReadsBackExactly(mem[..], ins, data[..]))
    {
      var fixed := new Buf(SG_STACK_PREALLOC, SG_STACK_PREALLOC, false);
      ServableShape(virtqs[v]);
      if !virtqs[v].enabled {
        return false;
      }
      ghost var x, was := virtqs[v], mem[..];
      if !Empty(x.queue) {
        ReceivesInMemory(x, va, mem.Length);
        FilledReadsBack(was, Segments(x, va), data[..]);
      }
      hide ChainOf, Servable, Vectors, Iov.Filled, Iov.InMemory, ReadsBackExactly, Shape;
      var buf := GetVirtqBuf(v, fixed);
      if buf == null {
        return false;
      }
      assert buf.nIn > 0 && buf.nOut == 0;
      Receive(v, buf, mem, data);
      sent := true;
    }

    /** The copy into a buffer, and its return. */
    method Receive(v: nat, buf: Buf, mem: array<byte>, data: array<byte>)
      requires v < virtqs.Length && Shape(virtqs[v].queue) && buf.nIn <= buf.inSg.Length
      requires Apart(mem, data) && mem as object != buf.inSg as object
      requires Iov.InMemory(buf.inSg[..buf.nIn], mem.Length)
      modifies virtqs, mem, buf`written
      ensures mem[..] == Iov.Filled(old(mem[..]), old(buf.inSg[..buf.nIn]), data[..])
      ensures virtqs[..]
        == old(virtqs[..])[v := old(virtqs[v]).(queue := Publish(old(virtqs[v]).queue, Elem(buf.idx, data.Length)))]
    {
      hide Iov.Filled, Iov.Total;
      var _ := Iov.IovFill(mem, buf.inSg[..buf.nIn], data);
      buf.written := data.Length;
      SendVirtqBuf(v, buf);
    }

    /** The interrupt job: every triggered queue is emptied, in the order of the queues. */
    method JobCallback(lens: nat -> (nat -> nat)) returns (calls: seq<Request>)
      requires Valid()
      modifies virtqs
      ensures forall v :: 0 <= v < virtqs.Length ==> virtqs[v] == Served(old(virtqs[v]), lens(v))
      ensures calls == CallsFrom(old(virtqs[..]), 0, va)
      ensures forall v :: 0 <= v < virtqs.Length ==> Shape(old(virtqs[v]).queue)
      ensures Emptied(old(virtqs[..]), virtqs[..], lens) && ServesQueues(old(virtqs[..]), calls, va)
    {
      ghost var was := virtqs[..];
      AllCallsServe(was, va);
      hide *;
      calls := ScanQueues(lens);
      ServedIsEmptied(was, virtqs[..], lens);
    }

    /** The interrupt job's loop. */
    method ScanQueues(lens: nat -> (nat -> nat)) returns (calls: seq<Request>)
      requires Valid()
      modifies virtqs
      ensures forall v :: 0 <= v < virtqs.Length ==> virtqs[v] == Served(old(virtqs[v]), lens(v))
      ensures calls == CallsFrom(old(virtqs[..]), 0, va)
    {
      calls := [];
      ghost var was := virtqs[..];
      var v := 0;
      hide Servable, ServedRequests, CallsFrom, Drained, Served;
      while v < virtqs.Length
        invariant v <= virtqs.Length == |was|
        invariant forall i :: 0 <= i < v ==> virtqs[i] == Served(was[i], lens(i))
        invariant forall i :: v <= i < virtqs.Length ==> virtqs[i] == was[i]
        invariant calls + CallsFrom(was, v, va) == CallsFrom(was, 0, va)
      {
        var more := ServeTriggered(v, lens(v));
        CallsStep(was, v, va, calls);
        calls := calls + more;
        v := v + 1;
      }
      CallsEnd(was, va, calls);
    }

    /** One turn of the interrupt job's loop. */
    method ServeTriggered(v: nat, lens: nat -> nat) returns (calls: seq<Request>)
      requires v < virtqs.Length && Servable(virtqs[v])
      modifies virtqs
      ensures virtqs[..] == old(virtqs[..])[v := Served(old(virtqs[v]), lens)]
      ensures calls == ServedRequests(old(virtqs[v]), v, va)
    {
      hide Requests, Pending, Drained;
      if !virtqs[v].triggered {
        return [];
      }
      virtqs[v] := virtqs[v].(triggered := false);
      calls := HandleQueue(v, lens);
    }

    /**
     * usfstl_vhost_user_virtq_kick: the kick of an input queue is noted, and the interrupt job is
     * scheduled, unless it is already, for the latency after now, or run at once when there is no
     * scheduler.
     */
    method Kick(v: nat, now: int, lens: nat -> (nat -> nat)) returns (calls: seq<Request>)
      requires Valid() && v < virtqs.Length
      modifies this, virtqs
      ensures var was := old(virtqs[..]); var noted := was[v := was[v].(triggered := true)];
        if v !in server.inputs then virtqs[..] == was && scheduled == old(scheduled) && calls == []
        else if old(scheduled) then virtqs[..] == noted && scheduled && calls == []
        else if server.scheduler then virtqs[..] == noted && scheduled && start == now + server.latency && calls == []
        else
          && !scheduled
          && (forall i :: 0 <= i < virtqs.Length ==> virtqs[i] == Served(noted[i], lens(i)))
          && (forall i :: 0 <= i < |noted| ==> Servable(noted[i])) && calls == CallsFrom(noted, 0, va)
          && Emptied(noted, virtqs[..], lens) && ServesQueues(noted, calls, va)
      ensures v !in server.inputs || old(scheduled) || !server.scheduler ==> start == old(start)
    {
      calls := [];
      if v !in server.inputs {
        return;
      }
      virtqs[v] := virtqs[v].(triggered := true);
      if scheduled {
        return;
      }
      if !server.scheduler {
        calls := JobCallback(lens);
        return;
      }
      start := now + server.latency;
      scheduled := true;
    }
  }

  lemma ServableShape(x: Virtq)
    requires Servable(x)
    ensures Shape(x.queue)
  {
  }

  // ---------- the class and the machines ----------

  /** What the device finds waiting is what the driver offered and the device has not handled, in order. */
  lemma {:induction false} PendingIsUnhandled(t: Trace)
    requires Good(t) && |t.handled| == |t.published|
    ensures Pending(t.q) == t.posted[|t.handled|..]
    decreases |t.posted| - |t.handled|
  {
    if Empty(t.q) {
      EmptyExactly(t);
      hide Good;
    } else {
      HeadIsOldest(t);
      ServeKeeps(t, 0);
      var s := Virtqueue.Step(Virtqueue.Step(t, Accept), Return(0));
      PendingPublish(Take(t.q), Elem(Head(t.q), 0));
      assert Pending(t.q) == [Head(t.q)] + Pending(s.q);
      var n := |t.handled|;
      assert |s.handled| == |s.published| == n + 1 && s.posted == t.posted;
      hide Pending, Good, Virtqueue.Step;
      PendingIsUnhandled(s);
      assert t.posted[n..] == [t.posted[n]] + t.posted[n + 1..];
    }
  }

  lemma Prepend(s: Kicks.Server, w: Kicks.World, m: Kicks.Move, rest: seq<Kicks.Move>)
    requires Kicks.WellFormed(w) && Kicks.Enabled(s, w, m) && Kicks.WellFormed(Kicks.Next(s, w, m))
    requires Kicks.Possible(s, Kicks.Next(s, w, m), rest)
    ensures Kicks.Possible(s, w, [m] + rest) && Kicks.Run(s, w, [m] + rest) == Kicks.Run(s, Kicks.Next(s, w, m), rest)
  {
    assert ([m] + rest)[1..] == rest;
    hide Kicks.Next, Kicks.Enabled, Kicks.WellFormed;
  }

  /** The loop over one queue, as steps of the interleaved machine. */
  lemma {:induction false} EmptyingRun(s: Kicks.Server, w: Kicks.World, v: nat, lens: nat -> nat, k: nat) returns (ms: seq<Kicks.Move>)
    requires Kicks.Invariant(s, w) && w.pc == Kicks.Serving(v)
    ensures Kicks.Possible(s, w, ms)
    ensures var f := Kicks.Run(s, w, ms);
      && |f.traces| == |w.traces| && f == w.(traces := w.traces[v := f.traces[v]], pc := Kicks.Scan(v + 1))
      && f.traces[v].q == Drained(w.traces[v].q, lens, k)
    decreases |w.traces[v].posted| - |w.traces[v].handled|
  {
    var t := w.traces[v];
    assert Good(t) && Kicks.Balanced(w, v);
    Kicks.NextKeeps(s, w, Kicks.Advance);
    var a := Kicks.Next(s, w, Kicks.Advance);
    if Empty(t.q) {
      assert a == w.(traces := w.traces[v := w.traces[v]], pc := Kicks.Scan(v + 1));
      hide Kicks.Next, Kicks.Invariant, Good;
      Prepend(s, w, Kicks.Advance, []);
      ms := [Kicks.Advance] + [];
    } else {
      HeadIsOldest(t);
      assert a.pc == Kicks.Holding(v) && Kicks.Balanced(a, v);
      var finish := Kicks.Finish(lens(k));
      Kicks.NextKeeps(s, a, finish);
      var b := Kicks.Next(s, a, finish);
      EmptyingTurn(s, w, v, lens(k));
      assert Drained(t.q, lens, k) == Drained(b.traces[v].q, lens, k + 1);
      hide Kicks.Next, Kicks.Invariant, Kicks.Enabled, Good, Drained;
      var rest := EmptyingRun(s, b, v, lens, k + 1);
      Prepend(s, a, finish, rest);
      Prepend(s, w, Kicks.Advance, [finish] + rest);
      ms := [Kicks.Advance] + ([finish] + rest);
    }
  }

  lemma EmptyingTurn(s: Kicks.Server, w: Kicks.World, v: nat, len: nat)
    requires Kicks.WellFormed(w) && w.pc == Kicks.Serving(v) && Kicks.Enabled(s, w, Kicks.Advance) && !Empty(w.traces[v].q)
    requires Good(w.traces[v]) && |w.traces[v].handled| == |w.traces[v].published|
    requires Kicks.WellFormed(Kicks.Next(s, w, Kicks.Advance))
    requires Kicks.Enabled(s, Kicks.Next(s, w, Kicks.Advance), Kicks.Finish(len))
    ensures var b := Kicks.Next(s, Kicks.Next(s, w, Kicks.Advance), Kicks.Finish(len));
      && b == w.(traces := w.traces[v := b.traces[v]])
      && b.traces[v].posted == w.traces[v].posted && |b.traces[v].handled| == |w.traces[v].handled| + 1
      && b.traces[v].q == Publish(Take(w.traces[v].q), Elem(Head(w.traces[v].q), len))
  {
    ServeKeeps(w.traces[v], len);
    hide Good, Virtqueue.Step;
  }

  /**
   * The interrupt job that runs on its own does to each queue what the class's JobCallback does, as
   * steps of the machine in which driver and device interleave.
   */
  lemma {:induction false} CallbackIsRun(s: Kicks.Server, w: Kicks.World, v: nat, lens: nat -> (nat -> nat)) returns (ms: seq<Kicks.Move>)
    requires Kicks.Invariant(s, w) && w.pc == Kicks.Scan(v)
    ensures Kicks.Possible(s, w, ms)
    ensures var f := Kicks.Run(s, w, ms);
      && |f.traces| == |f.triggered| == |w.traces| && f.pc == Kicks.Idle
      && forall i :: 0 <= i < |w.traces| ==>
           && Shape(w.traces[i].q)
           && f.triggered[i] == (w.triggered[i] && i < v)
           && f.traces[i].q == if w.triggered[i] && v <= i then Drained(w.traces[i].q, lens(i), 0) else w.traces[i].q
    decreases |w.traces| - v
  {
    Kicks.NextKeeps(s, w, Kicks.Advance);
    var a := Kicks.Next(s, w, Kicks.Advance);
    if v == |w.traces| {
      hide Kicks.Sound, Kicks.NoLostKick;
      Prepend(s, w, Kicks.Advance, []);
      ms := [Kicks.Advance] + [];
    } else if !w.triggered[v] {
      assert a == w.(pc := Kicks.Scan(v + 1));
      hide Kicks.Sound, Kicks.NoLostKick, Kicks.Next, Kicks.Enabled;
      var rest := CallbackIsRun(s, a, v + 1, lens);
      Prepend(s, w, Kicks.Advance, rest);
      ms := [Kicks.Advance] + rest;
    } else {
      assert a == w.(triggered := w.triggered[v := false], pc := Kicks.Serving(v));
      hide Kicks.Sound, Kicks.NoLostKick, Kicks.Next, Kicks.Enabled;
      var empty := EmptyingRun(s, a, v, lens(v), 0);
      Kicks.RunKeeps(s, a, empty);
      var b := Kicks.Run(s, a, empty);
      var rest := CallbackIsRun(s, b, v + 1, lens);
      RunAppend(s, a, empty, rest);
      Prepend(s, w, Kicks.Advance, empty + rest);
      ms := [Kicks.Advance] + (empty + rest);
    }
  }

  lemma {:induction false} RunAppend(s: Kicks.Server, w: Kicks.World, ms: seq<Kicks.Move>, rest: seq<Kicks.Move>)
    requires Kicks.WellFormed(w) && Kicks.Possible(s, w, ms) && Kicks.Possible(s, Kicks.Run(s, w, ms), rest)
    ensures Kicks.Possible(s, w, ms + rest) && Kicks.Run(s, w, ms + rest) == Kicks.Run(s, Kicks.Run(s, w, ms), rest)
    decreases |ms|
  {
    hide Kicks.Next, Kicks.Enabled, Kicks.WellFormed;
    if ms == [] {
      assert ms + rest == rest;
    } else {
      RunAppend(s, Kicks.Next(s, w, ms[0]), ms[1..], rest);
      assert (ms + rest)[1..] == ms[1..] + rest;
    }
  }
}
