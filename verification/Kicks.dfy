/** Kicks and the interrupt job: many queues, a driver and a device that interleave freely. */
module Kicks {
  import opened Common
  import opened Virtqueue

  /** Where the device is: outside the callback, at a queue of its scan, emptying a queue, or holding a buffer. */
  datatype Pc = Idle | Scan(next: nat) | Serving(v: nat) | Holding(h: nat)

  /**
   * The queues with their pasts, the flags triggered, the interrupt job, and the driver's side: queues
   * it still has to kick and kicks that are under way.
   */
  datatype World = World(traces: seq<Trace>, triggered: seq<bool>, scheduled: bool, pc: Pc, owed: seq<bool>, flight: seq<nat>)

  /** The server's configuration: its input queues, whether it runs on a scheduler, and the latency of its interrupts. */
  datatype Server = Server(inputs: set<nat>, scheduler: bool, latency: nat)

  datatype Move =
    | Driver(v: nat, op: Op)        // Offer or Reclaim on queue v
    | SendKick(v: nat)
    | Deliver(v: nat, kicks: nat)   // one eventfd read takes all pending kicks at once
    | Fire                          // the scheduler runs the interrupt job
    | Advance                       // the device's next step
    | Finish(len: nat)              // the handler is done with the buffer it holds

  predicate WellFormed(w: World) {
    && |w.triggered| == |w.owed| == |w.flight| == |w.traces|
    && (forall v :: 0 <= v < |w.traces| ==> Shape(w.traces[v].q))
    && match w.pc
       case Idle => true
       case Scan(v) => v <= |w.traces|
       case Serving(v) => v < |w.traces|
       case Holding(v) => v < |w.traces|
  }

  predicate Enabled(s: Server, w: World, m: Move)
    requires WellFormed(w)
  {
    match m
    case Driver(v, op) => v < |w.traces| && (op.Offer? || op.Reclaim?) && Legal(w.traces[v], op)
    case SendKick(v) => v < |w.traces| && w.owed[v]
    case Deliver(v, kicks) => v < |w.traces| && 1 <= kicks <= w.flight[v] && (s.scheduler || w.pc.Idle?)
    case Fire => w.scheduled && w.pc.Idle?
    case Advance =>
      (match w.pc
       case Idle => false
       case Scan(_) => true
       case Serving(v) => Empty(w.traces[v].q) || Legal(w.traces[v], Accept)
       case Holding(_) => false)
    case Finish(len) => w.pc.Holding? && Legal(w.traces[w.pc.h], Return(len))
  }

  /** usfstl_vhost_user_virtq_kick, once the kick has been read. */
  function Kicked(s: Server, w: World, v: nat): World
    requires WellFormed(w) && v < |w.traces|
  {
    if v !in s.inputs then w
    else
      var t := w.(triggered := w.triggered[v := true]);
      if w.scheduled then t
      else if s.scheduler then t.(scheduled := true)
      else t.(pc := Scan(0))
  }

  /** One step of usfstl_vhost_user_job_callback and usfstl_vhost_user_handle_queue. */
  function Advanced(w: World): World
    requires WellFormed(w) && !w.pc.Idle? && !w.pc.Holding?
    requires w.pc.Serving? && !Empty(w.traces[w.pc.v].q) ==> Legal(w.traces[w.pc.v], Accept)
  {
    match w.pc
    case Scan(v) =>
      if v == |w.traces| then w.(pc := Idle)
      else if !w.triggered[v] then w.(pc := Scan(v + 1))
      else w.(triggered := w.triggered[v := false], pc := Serving(v))
    case Serving(v) =>
      if Empty(w.traces[v].q) then w.(pc := Scan(v + 1))
      else w.(traces := w.traces[v := Virtqueue.Step(w.traces[v], Accept)], pc := Holding(v))
  }

  function Next(s: Server, w: World, m: Move): World
    requires WellFormed(w) && Enabled(s, w, m)
  {
    match m
    case Driver(v, op) =>
      w.(traces := w.traces[v := Virtqueue.Step(w.traces[v], op)],
         owed := if op.Offer? then w.owed[v := true] else w.owed)
    case SendKick(v) => w.(owed := w.owed[v := false], flight := w.flight[v := w.flight[v] + 1])
    case Deliver(v, kicks) => Kicked(s, w.(flight := w.flight[v := w.flight[v] - kicks]), v)
    case Fire => w.(scheduled := false, pc := Scan(0))
    case Advance => Advanced(w)
    case Finish(len) =>
      w.(traces := w.traces[w.pc.h := Virtqueue.Step(w.traces[w.pc.h], Return(len))], pc := Serving(w.pc.h))
  }

  // ---------- the invariant ----------

  predicate Unhandled(t: Trace) {
    |t.handled| < |t.posted|
  }

  /** The device's scan will still come by queue v. */
  predicate Ahead(pc: Pc, v: nat) {
    match pc
    case Idle => false
    case Scan(n) => n <= v
    case Serving(n) => n < v
    case Holding(n) => n < v
  }

  predicate AtQueue(pc: Pc, v: nat) {
    pc == Serving(v) || pc == Holding(v)
  }

  predicate Wanted(w: World, v: nat)
    requires WellFormed(w) && v < |w.traces|
  {
    w.owed[v] || w.flight[v] > 0 || w.triggered[v] || AtQueue(w.pc, v)
  }

  /** An entry the device has not handled is never forgotten. */
  predicate NoLostKick(s: Server, w: World)
    requires WellFormed(w)
  {
    forall v :: 0 <= v < |w.traces| ==> Remembered(s, w, v)
  }

  predicate Remembered(s: Server, w: World, v: nat)
    requires WellFormed(w) && v < |w.traces|
  {
    && (v in s.inputs && Unhandled(w.traces[v]) ==> Wanted(w, v))
    && (w.triggered[v] ==> w.scheduled || Ahead(w.pc, v))
  }

  /** Every queue is sound, and only the queue the device is at has a buffer out. */
  ghost predicate Sound(w: World)
    requires WellFormed(w)
  {
    forall v :: 0 <= v < |w.traces| ==> Good(w.traces[v]) && Balanced(w, v)
  }

  predicate Balanced(w: World, v: nat)
    requires WellFormed(w) && v < |w.traces|
  {
    |w.traces[v].handled| == |w.traces[v].published| + if w.pc == Holding(v) then 1 else 0
  }

  ghost predicate Invariant(s: Server, w: World) {
    WellFormed(w) && Sound(w) && NoLostKick(s, w) && (w.scheduled ==> s.scheduler)
  }

  // ---------- every step keeps it ----------

  lemma NextIsSound(s: Server, w: World, m: Move)
    requires Invariant(s, w) && Enabled(s, w, m)
    ensures WellFormed(Next(s, w, m)) && Sound(Next(s, w, m))
  {
    hide NoLostKick, Good, Holds, Shape;
    match m
    case Driver(v, op) => StepShape(w.traces[v], op);
    case Finish(len) => StepShape(w.traces[w.pc.h], Return(len));
    case Advance =>
      if w.pc.Serving? && !Empty(w.traces[w.pc.v].q) { StepShape(w.traces[w.pc.v], Accept); }
    case _ =>
  }

  lemma StepShape(t: Trace, op: Op)
    requires Good(t) && Legal(t, op)
    ensures Good(Virtqueue.Step(t, op)) && Shape(Virtqueue.Step(t, op).q)
  {
    StepKeeps(t, op);
    hide Holds, Virtqueue.Step;
  }

  /** Only the driver's offers make entries to handle. */
  lemma StepUnhandled(t: Trace, op: Op)
    requires Shape(t.q) && Legal(t, op) && !op.Offer?
    ensures Unhandled(Virtqueue.Step(t, op)) ==> Unhandled(t)
  {
  }

  lemma NextRemembers(s: Server, w: World, m: Move)
    requires Invariant(s, w) && Enabled(s, w, m) && WellFormed(Next(s, w, m))
    ensures NoLostKick(s, Next(s, w, m))
  {
    var n := Next(s, w, m);
    assert |n.traces| == |w.traces|;
    hide Sound, Enabled, Next, Remembered;
    forall v | 0 <= v < |n.traces| ensures Remembered(s, n, v) { RememberedNext(s, w, m, v); }
  }

  lemma RememberedNext(s: Server, w: World, m: Move, v: nat)
    requires WellFormed(w) && Sound(w) && Enabled(s, w, m) && WellFormed(Next(s, w, m))
    requires v < |w.traces| && |Next(s, w, m).traces| == |w.traces| && Remembered(s, w, v) && (w.scheduled ==> s.scheduler)
    ensures Remembered(s, Next(s, w, m), v)
  {
    if m.Advance? && w.pc.Serving? {
      assert Good(w.traces[w.pc.v]);
      EmptyExactly(w.traces[w.pc.v]);
      if !Empty(w.traces[w.pc.v].q) { StepUnhandled(w.traces[w.pc.v], Accept); }
    }
    if m.Finish? { StepUnhandled(w.traces[w.pc.h], Return(m.len)); }
    if m.Driver? && !m.op.Offer? { StepUnhandled(w.traces[m.v], m.op); }
    hide Sound, Good, Holds, Virtqueue.Step, Legal, Shape;
  }

  lemma NextKeeps(s: Server, w: World, m: Move)
    requires Invariant(s, w) && Enabled(s, w, m)
    ensures Invariant(s, Next(s, w, m))
  {
    NextIsSound(s, w, m);
    NextRemembers(s, w, m);
    hide Sound, NoLostKick;
  }

  ghost predicate Possible(s: Server, w: World, ms: seq<Move>)
    requires WellFormed(w)
    decreases |ms|
  {
    ms == [] || (Enabled(s, w, ms[0]) && WellFormed(Next(s, w, ms[0])) && Possible(s, Next(s, w, ms[0]), ms[1..]))
  }

  ghost function Run(s: Server, w: World, ms: seq<Move>): (f: World)
    requires WellFormed(w) && Possible(s, w, ms)
    ensures WellFormed(f)
    decreases |ms|
  {
    if ms == [] then w else Run(s, Next(s, w, ms[0]), ms[1..])
  }

  lemma {:induction false} RunKeeps(s: Server, w: World, ms: seq<Move>)
    requires Invariant(s, w) && Possible(s, w, ms)
    ensures Invariant(s, Run(s, w, ms))
    decreases |ms|
  {
    if ms != [] {
      NextKeeps(s, w, ms[0]);
      hide Invariant, Enabled, Next;
      RunKeeps(s, Next(s, w, ms[0]), ms[1..]);
    }
  }

  // ---------- quiescence ----------

  /** Nothing is under way: no kick owed or in flight, no interrupt job, no callback. */
  predicate Quiet(w: World)
    requires WellFormed(w)
  {
    w.pc.Idle? && !w.scheduled && forall v :: 0 <= v < |w.traces| ==> !w.owed[v] && w.flight[v] == 0
  }

  ghost predicate Drained(t: Trace) {
    t.handled == t.posted && Ids(t.published) == t.posted && t.q.usedIdx == t.q.lastAvail == t.q.availIdx
  }

  lemma QuietIsDrained(s: Server, w: World)
    requires Invariant(s, w) && Quiet(w)
    ensures forall v :: 0 <= v < |w.traces| && v in s.inputs ==> Drained(w.traces[v])
  {
    forall v | 0 <= v < |w.traces| && v in s.inputs ensures Drained(w.traces[v]) {
      assert Remembered(s, w, v) && Balanced(w, v) && Good(w.traces[v]);
      hide Holds, Ids;
    }
  }

  /** A start: fresh rings, nothing posted, everything off. */
  ghost predicate Start(w: World) {
    && WellFormed(w) && w.pc.Idle? && !w.scheduled
    && forall v :: 0 <= v < |w.traces| ==>
         Fresh(w.traces[v].q) && w.traces[v] == Trace(w.traces[v].q, [], [], [], []) && !w.triggered[v]
  }

  /**
   * No kick is lost: in every interleaving of driver and device, whenever all is quiet every input
   * queue has had each posted head handled once, in order, and its id published, in order.
   */
  lemma QuietRunsAreDrained(s: Server, w: World, ms: seq<Move>)
    requires Start(w) && Possible(s, w, ms) && Quiet(Run(s, w, ms))
    ensures var f := Run(s, w, ms); forall v :: 0 <= v < |f.traces| && v in s.inputs ==> Drained(f.traces[v])
  {
    StartIsSound(s, w);
    RunKeeps(s, w, ms);
    hide Invariant, Possible, Run, Quiet, Start;
    QuietIsDrained(s, Run(s, w, ms));
  }

  lemma StartIsSound(s: Server, w: World)
    requires Start(w)
    ensures Invariant(s, w)
  {
    forall v | 0 <= v < |w.traces| ensures Good(w.traces[v]) && Balanced(w, v) && Remembered(s, w, v) {
      hide Ids;
      assert Ids([]) == [];
    }
  }

  // ---------- and it does become quiet ----------

  function Total(xs: seq<nat>): nat {
    if xs == [] then 0 else Total(xs[..|xs| - 1]) + xs[|xs| - 1]
  }

  lemma {:induction false} TotalUpdate(xs: seq<nat>, i: nat, x: nat)
    requires i < |xs|
    ensures Total(xs[i := x]) == Total(xs) - xs[i] + x
  {
    var n := |xs| - 1;
    if i < n {
      TotalUpdate(xs[..n], i, x);
      assert xs[i := x][..n] == xs[..n][i := x];
    } else {
      assert xs[i := x][..n] == xs[..n];
    }
  }

  function Owed(w: World): seq<nat>
    requires WellFormed(w)
  {
    seq(|w.owed|, v requires 0 <= v < |w.owed| => if w.owed[v] then 1 else 0)
  }

  function Left(w: World): seq<nat>
    requires WellFormed(w)
  {
    seq(|w.traces|, v requires 0 <= v < |w.traces| =>
      if |w.traces[v].posted| >= |w.traces[v].handled| then |w.traces[v].posted| - |w.traces[v].handled| else 0)
  }

  /** How far the callback is from its end. */
  function Rank(w: World): nat
    requires WellFormed(w)
  {
    var n := |w.traces|;
    match w.pc
    case Idle => 0
    case Scan(v) => 3 * (n - v) + 1
    case Holding(v) => 3 * (n - v)
    case Serving(v) => 3 * (n - v) - 1
  }

  predicate Smaller(s: Server, a: World, b: World)
    requires WellFormed(a) && WellFormed(b)
  {
    var oa, ob, fa, fb := Total(Owed(a)), Total(Owed(b)), Total(a.flight), Total(b.flight);
    var sa, sb := if a.scheduled then 1 else 0, if b.scheduled then 1 else 0;
    var la, lb := Total(Left(a)), Total(Left(b));
    oa < ob || (oa == ob && (fa < fb || (fa == fb && (sa < sb || (sa == sb && (la < lb || (la == lb && Rank(a) < Rank(b))))))))
  }

  lemma KickIsSmaller(s: Server, w: World, v: nat)
    requires Invariant(s, w) && v < |w.traces| && w.owed[v]
    ensures WellFormed(Next(s, w, SendKick(v))) && Smaller(s, Next(s, w, SendKick(v)), w)
  {
    hide NoLostKick, Sound, Total;
    var n := Next(s, w, SendKick(v));
    assert Owed(n) == Owed(w)[v := 0];
    TotalUpdate(Owed(w), v, 0);
    hide Owed, Left, Rank, Total;
  }

  lemma DeliveryIsSmaller(s: Server, w: World, v: nat, kicks: nat)
    requires Invariant(s, w) && Enabled(s, w, Deliver(v, kicks))
    ensures WellFormed(Next(s, w, Deliver(v, kicks))) && Smaller(s, Next(s, w, Deliver(v, kicks)), w)
  {
    hide NoLostKick, Sound, Total;
    var n := Next(s, w, Deliver(v, kicks));
    assert Owed(n) == Owed(w);
    TotalUpdate(w.flight, v, w.flight[v] - kicks);
    hide Owed, Left, Rank, Total;
  }

  /** Handling an entry leaves one less to handle. */
  lemma AcceptIsSmaller(s: Server, w: World)
    requires Invariant(s, w) && w.pc.Serving? && !Empty(w.traces[w.pc.v].q)
    ensures Enabled(s, w, Advance)
    ensures var n := Next(s, w, Advance);
      WellFormed(n) && Owed(n) == Owed(w) && n.flight == w.flight && n.scheduled == w.scheduled && Total(Left(n)) < Total(Left(w))
  {
    var v := w.pc.v;
    assert Good(w.traces[v]) && Balanced(w, v);
    EmptyExactly(w.traces[v]);
    hide NoLostKick, Good, Holds, Total;
    NextIsSound(s, w, Advance);
    hide Sound;
    var n := Next(s, w, Advance);
    assert n.traces == w.traces[v := Virtqueue.Step(w.traces[v], Accept)];
    assert |n.traces[v].handled| == |w.traces[v].handled| + 1 && n.traces[v].posted == w.traces[v].posted;
    hide Virtqueue.Step, Next;
    assert Left(n) == Left(w)[v := Left(w)[v] - 1];
    TotalUpdate(Left(w), v, Left(w)[v] - 1);
  }

  lemma ScanIsSmaller(s: Server, w: World, m: Move)
    requires Invariant(s, w) && Enabled(s, w, m) && (m.Fire? || m.Advance? || m.Finish?)
    requires m.Advance? && w.pc.Serving? ==> Empty(w.traces[w.pc.v].q)
    ensures WellFormed(Next(s, w, m)) && Smaller(s, Next(s, w, m), w)
  {
    NextIsSound(s, w, m);
    hide NoLostKick, Sound, Total;
    var n := Next(s, w, m);
    assert Owed(n) == Owed(w);
    assert Left(n) == Left(w);
    hide Owed, Left, Total;
  }

  /** Every step but the driver's own brings the device closer to rest. */
  lemma NextIsSmaller(s: Server, w: World, m: Move)
    requires Invariant(s, w) && Enabled(s, w, m) && !m.Driver?
    ensures WellFormed(Next(s, w, m)) && Smaller(s, Next(s, w, m), w)
  {
    hide NoLostKick, Sound, Next;
    if m.SendKick? {
      KickIsSmaller(s, w, m.v);
    } else if m.Deliver? {
      DeliveryIsSmaller(s, w, m.v, m.kicks);
    } else if m.Advance? && w.pc.Serving? && !Empty(w.traces[w.pc.v].q) {
      AcceptIsSmaller(s, w);
    } else {
      ScanIsSmaller(s, w, m);
    }
  }

  /** While something is under way, a step other than the driver's is possible. */
  lemma NotStuck(s: Server, w: World) returns (m: Move)
    requires Invariant(s, w) && !Quiet(w)
    ensures Enabled(s, w, m) && !m.Driver?
  {
    match w.pc
    case Idle =>
      if w.scheduled {
        m := Fire;
      } else {
        var v :| 0 <= v < |w.traces| && (w.owed[v] || w.flight[v] > 0);
        m := if w.owed[v] then SendKick(v) else Deliver(v, w.flight[v]);
      }
    case Scan(_) => m := Advance;
    case Serving(v) =>
      assert Balanced(w, v);
      m := Advance;
    case Holding(v) =>
      assert Balanced(w, v);
      m := Finish(0);
  }

  /** Once the driver stops, the device comes to rest, with every input queue drained. */
  lemma {:induction false} Settles(s: Server, w: World) returns (ms: seq<Move>)
    requires Invariant(s, w)
    ensures Possible(s, w, ms) && (forall m :: m in ms ==> !m.Driver?) && Quiet(Run(s, w, ms))
    ensures var f := Run(s, w, ms); forall v :: 0 <= v < |f.traces| && v in s.inputs ==> Drained(f.traces[v])
    decreases Total(Owed(w)), Total(w.flight), w.scheduled, Total(Left(w)), Rank(w)
  {
    if Quiet(w) {
      ms := [];
      QuietIsDrained(s, w);
    } else {
      var m := NotStuck(s, w);
      NextKeeps(s, w, m);
      NextIsSmaller(s, w, m);
      hide Total, Owed, Left, Rank, Next, Enabled, NoLostKick, Sound, Quiet, Drained;
      var rest := Settles(s, Next(s, w, m));
      ms := [m] + rest;
      assert ms[1..] == rest;
    }
  }
}
