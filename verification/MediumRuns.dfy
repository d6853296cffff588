/** The medium: one frame queue per station and access category, kept in step with the scheduler. */
module MediumRuns {
  import opened Clock
  import opened Common
  import opened SchedState
  import opened SchedRuns

  /** Access categories, highest priority first. */
  const AC_VO: nat := 0
  const AC_VI: nat := 1
  const AC_BE: nat := 2
  const AC_BK: nat := 3
  const NUM_ACS: nat := 4

  /** A frame's delivery job is embedded in the frame; all other jobs are foreign to the medium. */
  datatype MJob<+F> = Delivery(frame: F) | Foreign(job: F)

  /** `serial` is the number of the add that scheduled the delivery job, `home` the queue the frame went to. */
  datatype Frame<+F> = Frame(id: F, src: Option<nat>, home: nat, serial: nat, start: int, duration: int) {
    /** The access category of the frame's queue. */
    function Ac(): nat {
      home % NUM_ACS
    }

    /** The delivery job as the scheduler lists it. */
    function Job(): Item<MJob<F>> {
      Item(Delivery(id), serial, start, 0, 0)
    }
  }

  /** Queue 4 * station + ac holds the frames of a station's access category; clients[station] is its client. */
  datatype Medium<+F> = Medium(sched: State<MJob<F>>, queues: seq<seq<Frame<F>>>, clients: seq<Option<nat>>)

  datatype Op<+F> =
    | QueueFrame(id: F, station: nat, ac: nat, duration: int)
    | RunNext(time: int)
    | RemoveClient(client: nat)
    | SetClient(station: nat, client: nat)
    | AddForeign(other: F, start: int, priority: int, group: int)
    | DelForeign(other: F)
    | Advance(time: int)

  // ---------- queue_frame ----------

  function Max(a: int, b: int): int {
    if a < b then b else a
  }

  /** The start of the last frame in q, if it is later than time. */
  function TailStart<F>(time: int, q: seq<Frame<F>>): int {
    if q == [] then time else Max(time, q[|q| - 1].start)
  }

  /** The earliest time after every tail of equal or higher priority. */
  function Target<F>(now: int, queues: seq<seq<Frame<F>>>, ac: nat): int {
    if queues == [] then now
    else
      var rest, n := queues[..|queues| - 1], |queues| - 1;
      var t := Target(now, rest, ac);
      if n % NUM_ACS <= ac then TailStart(t, queues[n]) else t
  }

  function QueuedFrame<F>(m: Medium<F>, id: F, station: nat, ac: nat, duration: int): Frame<F>
    requires station < |m.clients|
  {
    Frame(id, m.clients[station], NUM_ACS * station + ac, m.sched.adds, Target(m.sched.now, m.queues, ac) + duration, duration)
  }

  function Queued<F(==)>(m: Medium<F>, id: F, station: nat, ac: nat, duration: int): Medium<F>
    requires station < |m.clients| && ac < NUM_ACS && |m.queues| == NUM_ACS * |m.clients|
  {
    var f := QueuedFrame(m, id, station, ac, duration);
    m.(sched := Add(Unbounded, m.sched, Delivery(id), f.start, 0, 0),
       queues := m.queues[f.home := m.queues[f.home] + [f]])
  }

  // ---------- list_del and remove_client ----------

  /** q without the frames p picks. */
  function DropWhere<F>(q: seq<Frame<F>>, p: Frame<F> -> bool): seq<Frame<F>> {
    if q == [] then []
    else if p(q[0]) then DropWhere(q[1..], p)
    else [q[0]] + DropWhere(q[1..], p)
  }

  function ById<F(==)>(id: F): Frame<F> -> bool {
    (f: Frame<F>) => f.id == id
  }

  function ByClient<F>(client: nat): Frame<F> -> bool {
    (f: Frame<F>) => f.src == Some(client)
  }

  function DropAll<F>(queues: seq<seq<Frame<F>>>, p: Frame<F> -> bool): (r: seq<seq<Frame<F>>>)
    ensures |r| == |queues| && forall i :: 0 <= i < |queues| ==> r[i] == DropWhere(queues[i], p)
  {
    seq(|queues|, i requires 0 <= i < |queues| => DropWhere(queues[i], p))
  }

  function ClientFrames<F>(q: seq<Frame<F>>, client: nat): seq<Frame<F>> {
    if q == [] then []
    else if q[0].src == Some(client) then [q[0]] + ClientFrames(q[1..], client)
    else ClientFrames(q[1..], client)
  }

  function DelFrames<F(==)>(st: State<MJob<F>>, frames: seq<Frame<F>>): State<MJob<F>>
    decreases |frames|
  {
    if frames == [] then st else DelFrames(Del(st, Delivery(frames[0].id)), frames[1..])
  }

  /** Deletes the client's jobs queue by queue. */
  function DelQueues<F(==)>(st: State<MJob<F>>, queues: seq<seq<Frame<F>>>, client: nat): State<MJob<F>> {
    if queues == [] then st
    else DelFrames(DelQueues(st, queues[..|queues| - 1], client), ClientFrames(queues[|queues| - 1], client))
  }

  function Removed<F(==)>(m: Medium<F>, client: nat): Medium<F> {
    Medium(DelQueues(m.sched, m.queues, client),
           DropAll(m.queues, ByClient(client)),
           seq(|m.clients|, i requires 0 <= i < |m.clients| => if m.clients[i] == Some(client) then None else m.clients[i]))
  }

  /** The scheduler takes off its first job, at a time that the waits for it may have made early or late. */
  function TakeFirst<T>(st: State<T>, time: int): State<T>
    requires st.jobs != []
  {
    st.(now := time, jobs := st.jobs[1..])
  }

  /** The first job runs; if it is a delivery, the frame leaves whatever queue it is on. */
  function RunFirstJob<F(==)>(m: Medium<F>, time: int): Medium<F>
    requires m.sched.jobs != []
  {
    var n := m.(sched := TakeFirst(m.sched, time));
    match m.sched.jobs[0].job
    case Foreign(_) => n
    case Delivery(id) => n.(queues := DropAll(m.queues, ById(id)))
  }

  // ---------- invariant ----------

  ghost predicate Legal<F>(m: Medium<F>, op: Op<F>) {
    && |m.queues| == NUM_ACS * |m.clients|
    && match op
       case QueueFrame(id, station, ac, duration) =>
         station < |m.clients| && ac < NUM_ACS && 0 <= duration && !Listed(m.sched.jobs, Delivery(id))
       case RunNext(time) => m.sched.jobs != [] && m.sched.now <= time
       case RemoveClient(_) => true
       case SetClient(station, _) => station < |m.clients| && m.clients[station].None?
       case AddForeign(job, start, _, group) => m.sched.now <= start && !Listed(m.sched.jobs, Foreign(job))
       case DelForeign(_) => true
       case Advance(time) => m.sched.now <= time
  }

  function Step<F(==)>(m: Medium<F>, op: Op<F>): Medium<F>
    requires |m.queues| == NUM_ACS * |m.clients|
  {
    match op
    case QueueFrame(id, station, ac, duration) =>
      if station < |m.clients| && ac < NUM_ACS then Queued(m, id, station, ac, duration) else m
    case RunNext(time) => if m.sched.jobs == [] then m else RunFirstJob(m, time)
    case RemoveClient(client) => Removed(m, client)
    case SetClient(station, client) => if station < |m.clients| then m.(clients := m.clients[station := Some(client)]) else m
    case AddForeign(job, start, priority, group) => m.(sched := Add(Unbounded, m.sched, Foreign(job), start, priority, group))
    case DelForeign(job) => m.(sched := Del(m.sched, Foreign(job)))
    case Advance(time) => m.(sched := m.sched.(now := time))
  }

  ghost predicate JobsDiffer<T>(s: seq<Item<T>>) {
    forall i, j :: 0 <= i < j < |s| ==> s[i].job != s[j].job
  }

  /** In turn, no group blocked, no job twice. */
  ghost predicate SchedOk<T>(st: State<T>) {
    && TurnOrder(st.jobs) && st.blocked == {} && st.pending == []
    && (forall i :: 0 <= i < |st.jobs| ==> st.jobs[i].serial < st.adds)
    && JobsDiffer(st.jobs)
  }

  ghost predicate FramesRise<F>(q: seq<Frame<F>>) {
    forall k, l :: 0 <= k < l < |q| ==> q[k].serial < q[l].serial && q[k].start <= q[l].start
  }

  /** A queue is in the order its frames were added, which is also the order of their starts. */
  ghost predicate QueueOk<F>(q: seq<Frame<F>>, home: nat, live: map<nat, Frame<F>>) {
    && (forall k :: 0 <= k < |q| ==> q[k].home == home && q[k].serial in live && live[q[k].serial] == q[k])
    && FramesRise(q)
  }

  /** live lists the queued frames by serial number; they are exactly the frames with a scheduled delivery job. */
  ghost predicate Agree<F>(m: Medium<F>, live: map<nat, Frame<F>>) {
    && |m.queues| == NUM_ACS * |m.clients|
    && SchedOk(m.sched)
    && (forall i :: 0 <= i < |m.queues| ==> QueueOk(m.queues[i], i, live))
    && (forall n :: n in live ==> live[n].serial == n && live[n].home < |m.queues| && live[n] in m.queues[live[n].home] && live[n].Job() in m.sched.jobs)
    && (forall x :: x in m.sched.jobs && x.job.Delivery? ==> x.serial in live && live[x.serial].Job() == x)
  }

  // ---------- the target ----------

  /** Scanning the tails alone finds the latest start among all frames of equal or higher priority. */
  ghost predicate IsTarget<F>(t: int, now: int, queues: seq<seq<Frame<F>>>, ac: nat) {
    && now <= t
    && (forall i, k :: 0 <= i < |queues| && i % NUM_ACS <= ac && 0 <= k < |queues[i]| ==> queues[i][k].start <= t)
    && (t == now || exists i, k :: 0 <= i < |queues| && i % NUM_ACS <= ac && 0 <= k < |queues[i]| && queues[i][k].start == t)
  }

  ghost predicate StartsRise<F>(q: seq<Frame<F>>) {
    forall k, l :: 0 <= k < l < |q| ==> q[k].start <= q[l].start
  }

  lemma {:induction false} TargetIsMax<F>(now: int, queues: seq<seq<Frame<F>>>, ac: nat)
    requires forall i :: 0 <= i < |queues| ==> StartsRise(queues[i])
    ensures IsTarget(Target(now, queues, ac), now, queues, ac)
  {
    if queues != [] {
      var n := |queues| - 1;
      var rest: seq<seq<Frame<F>>> := queues[..n];
      TargetIsMax(now, rest, ac);
      var t, q := Target(now, rest, ac), queues[n];
      if t != now {
        var i: nat, k: nat :| 0 <= i < |rest| && i % NUM_ACS <= ac && 0 <= k < |rest[i]| && rest[i][k].start == t;
        assert queues[i][k].start == t;
      }
      if n % NUM_ACS <= ac && q != [] {
        assert forall k :: 0 <= k < |q| ==> q[k].start <= q[|q| - 1].start;
      }
    }
  }

  // ---------- the scheduler's part ----------

  lemma InsertMembers<T>(s: seq<Item<T>>, x: Item<T>)
    ensures forall y :: y in Insert(Unbounded, s, x) <==> y in s || y == x
  {
    var k := Slot(Unbounded, s, x);
    assert s == s[..k] + s[k..];
  }

  lemma InsertDiffers<T>(s: seq<Item<T>>, x: Item<T>)
    requires JobsDiffer(s) && !Listed(s, x.job)
    ensures JobsDiffer(Insert(Unbounded, s, x))
  {
    var k, r := Slot(Unbounded, s, x), Insert(Unbounded, s, x);
    hide Slot;
    forall i, j | 0 <= i < j < |r| ensures r[i].job != r[j].job {
      if i == k { assert r[j] == s[j - 1]; }
      else if j == k { assert r[i] == s[i]; }
      else { assert r[i] == s[if i < k then i else i - 1] && r[j] == s[if j < k then j else j - 1]; }
    }
  }

  lemma AddOk<T>(st: State<T>, job: T, start: int, priority: int, group: int)
    requires SchedOk(st) && !Listed(st.jobs, job)
    ensures var r := Add(Unbounded, st, job, start, priority, group);
      && SchedOk(r) && r.now == st.now && r.adds == st.adds + 1
      && (forall x :: x in r.jobs <==> x in st.jobs || x == Item(job, st.adds, start, priority, group))
  {
    var x := Item(job, st.adds, start, priority, group);
    InsertInTurn(st.jobs, x);
    InsertMembers(st.jobs, x);
    InsertDiffers(st.jobs, x);
    hide TurnOrder, JobsDiffer, Insert;
    var r := Add(Unbounded, st, job, start, priority, group);
    assert r.jobs == Insert(Unbounded, st.jobs, x);
    forall i | 0 <= i < |r.jobs| ensures r.jobs[i].serial < r.adds {
      assert r.jobs[i] in r.jobs;
    }
  }

  lemma {:induction false} WithoutDiffers<T>(s: seq<Item<T>>, job: T)
    requires JobsDiffer(s)
    ensures JobsDiffer(Without(s, job)) && forall x :: x in Without(s, job) ==> x in s
  {
    if s != [] {
      WithoutDiffers(s[1..], job);
      assert forall x :: x in s[1..] ==> x in s;
      forall j | 0 <= j < |Without(s[1..], job)| ensures s[0].job != Without(s[1..], job)[j].job {
        assert Without(s[1..], job)[j] in s[1..];
      }
    }
  }

  lemma DelOk<T>(st: State<T>, job: T)
    requires SchedOk(st)
    ensures var r := Del(st, job);
      && SchedOk(r) && r == st.(jobs := r.jobs)
      && (forall x :: x in r.jobs <==> x in st.jobs && x.job != job)
  {
    WithoutInTurn(st.jobs, job);
    WithoutDiffers(st.jobs, job);
    forall i | 0 <= i < |Without(st.jobs, job)| ensures Without(st.jobs, job)[i] in st.jobs {}
    WithoutMembers(st.jobs, job);
  }

  lemma RunOk<T>(st: State<T>, time: int)
    requires SchedOk(st) && st.jobs != []
    ensures var r := TakeFirst(st, time);
      SchedOk(r) && (forall x :: x in r.jobs <==> x in st.jobs && x != st.jobs[0])
  {
    var s, r := st.jobs, st.jobs[1..];
    assert s == [s[0]] + r;
    forall i | 0 <= i < |r| ensures r[i] != s[0] && r[i] == s[i + 1] { assert Precedes(s[0], s[i + 1]); }
    hide Precedes;
  }

  // ---------- queueing a frame ----------

  lemma QueueExtends<F>(q: seq<Frame<F>>, home: nat, live: map<nat, Frame<F>>, f: Frame<F>)
    requires QueueOk(q, home, live) && f.home == home
    requires forall n :: n in live ==> n < f.serial && live[n].serial == n
    requires forall k :: 0 <= k < |q| ==> q[k].start <= f.start
    ensures QueueOk(q + [f], home, live[f.serial := f])
  {
    forall k | 0 <= k < |q| ensures q[k].serial < f.serial { assert q[k].serial in live; }
  }

  lemma QueueStays<F>(q: seq<Frame<F>>, home: nat, live: map<nat, Frame<F>>, f: Frame<F>)
    requires QueueOk(q, home, live)
    requires forall n :: n in live ==> n < f.serial
    ensures QueueOk(q, home, live[f.serial := f])
  {
  }

  lemma LiveBounded<F>(m: Medium<F>, live: map<nat, Frame<F>>)
    requires Agree(m, live)
    ensures forall n :: n in live ==> n < m.sched.adds && live[n].serial == n
  {
    forall n | n in live ensures n < m.sched.adds {
      assert live[n].Job() in m.sched.jobs;
    }
  }

  lemma QueueAgrees<F>(m: Medium<F>, live: map<nat, Frame<F>>, id: F, station: nat, ac: nat, duration: int)
    requires Agree(m, live) && Legal(m, QueueFrame(id, station, ac, duration))
    ensures var n, f := Queued(m, id, station, ac, duration), QueuedFrame(m, id, station, ac, duration);
      && f.Ac() == ac && Agree(n, live[m.sched.adds := f])
      && IsTarget(f.start - duration, m.sched.now, m.queues, ac)
  {
    hide Agree, Target, Add, SchedOk, StartsRise;
    var f := QueuedFrame(m, id, station, ac, duration);
    AgreeFacts(m, live);
    TargetIsMax(m.sched.now, m.queues, ac);
    LiveBounded(m, live);
    HomeAc(station, ac);
    AddOk(m.sched, Delivery(id), f.start, 0, 0);
    assert f.home < |m.queues|;
    PutFrame(m, live, f, Add(Unbounded, m.sched, Delivery(id), f.start, 0, 0));
  }

  lemma AgreeFacts<F>(m: Medium<F>, live: map<nat, Frame<F>>)
    requires Agree(m, live)
    ensures SchedOk(m.sched) && forall i :: 0 <= i < |m.queues| ==> StartsRise(m.queues[i])
  {
    hide SchedOk;
    assert forall i :: 0 <= i < |m.queues| ==> QueueOk(m.queues[i], i, live);
  }

  /** Agreement is kept by any frame put at the end of its queue, behind all its starts, with its job scheduled. */
  lemma PutFrame<F>(m: Medium<F>, live: map<nat, Frame<F>>, f: Frame<F>, sched: State<MJob<F>>)
    requires Agree(m, live) && f.home < |m.queues| && SchedOk(sched)
    requires forall n :: n in live ==> n < f.serial && live[n].serial == n
    requires forall k :: 0 <= k < |m.queues[f.home]| ==> m.queues[f.home][k].start <= f.start
    requires forall x :: x in sched.jobs <==> x in m.sched.jobs || x == f.Job()
    ensures Agree(m.(sched := sched, queues := m.queues[f.home := m.queues[f.home] + [f]]), live[f.serial := f])
  {
    hide SchedOk;
    var n, live' := m.(sched := sched, queues := m.queues[f.home := m.queues[f.home] + [f]]), live[f.serial := f];
    forall i | 0 <= i < |n.queues| ensures QueueOk(n.queues[i], i, live') {
      if i == f.home {
        QueueExtends(m.queues[i], i, live, f);
      } else {
        QueueStays(m.queues[i], i, live, f);
      }
    }
    hide QueueOk;
    forall k | k in live'
      ensures live'[k].serial == k && live'[k].home < |n.queues| && live'[k] in n.queues[live'[k].home] && live'[k].Job() in n.sched.jobs
    {
      if k == f.serial {
        assert n.queues[f.home][|m.queues[f.home]|] == f;
      } else {
        StillQueued(m.queues, f.home, f, live[k]);
      }
    }
  }

  lemma StillQueued<F>(queues: seq<seq<Frame<F>>>, home: nat, f: Frame<F>, g: Frame<F>)
    requires home < |queues| && g.home < |queues| && g in queues[g.home]
    ensures g in queues[home := queues[home] + [f]][g.home]
  {
  }

  lemma HomeAc(station: nat, ac: nat)
    requires ac < NUM_ACS
    ensures (NUM_ACS * station + ac) % NUM_ACS == ac
  {
  }

  // ---------- frames leaving ----------

  lemma {:induction false} DropFacts<F>(q: seq<Frame<F>>, p: Frame<F> -> bool)
    ensures forall f :: f in DropWhere(q, p) <==> f in q && !p(f)
    ensures forall i :: 0 <= i < |DropWhere(q, p)| ==> DropWhere(q, p)[i] in q && !p(DropWhere(q, p)[i])
  {
    if q != [] {
      DropFacts(q[1..], p);
      assert q == [q[0]] + q[1..];
    }
  }

  lemma {:induction false} DropQueueOk<F>(q: seq<Frame<F>>, p: Frame<F> -> bool, home: nat, live: map<nat, Frame<F>>)
    requires QueueOk(q, home, live)
    ensures QueueOk(DropWhere(q, p), home, LiveWithout(live, p))
  {
    DropOrder(q, p);
    DropFacts(q, p);
    var r := DropWhere(q, p);
    forall k | 0 <= k < |r| ensures r[k].home == home && r[k].serial in LiveWithout(live, p) && LiveWithout(live, p)[r[k].serial] == r[k] {
      assert r[k] in r;
      var i :| 0 <= i < |q| && q[i] == r[k];
    }
  }

  lemma {:induction false} DropOrder<F>(q: seq<Frame<F>>, p: Frame<F> -> bool)
    requires FramesRise(q)
    ensures FramesRise(DropWhere(q, p))
    ensures forall f :: f in DropWhere(q, p) ==> f in q
  {
    if q != [] {
      assert FramesRise(q[1..]) by {
        assert forall k :: 0 <= k < |q[1..]| ==> q[1..][k] == q[k + 1];
      }
      DropOrder(q[1..], p);
      var r := DropWhere(q[1..], p);
      forall l | 0 <= l < |r| ensures q[0].serial < r[l].serial && q[0].start <= r[l].start {
        assert r[l] in q[1..];
        var i :| 0 <= i < |q[1..]| && q[1..][i] == r[l];
        assert r[l] == q[i + 1];
      }
      assert FramesRise([q[0]] + r);
    }
  }

  ghost function LiveWithout<F>(live: map<nat, Frame<F>>, p: Frame<F> -> bool): map<nat, Frame<F>> {
    map n | n in live && !p(live[n]) :: live[n]
  }

  /** Agreement is kept when the frames p picks leave their queues and exactly their jobs the scheduler. */
  lemma FramesLeave<F>(m: Medium<F>, live: map<nat, Frame<F>>, p: Frame<F> -> bool, sched: State<MJob<F>>, clients: seq<Option<nat>>)
    requires Agree(m, live) && SchedOk(sched) && |clients| == |m.clients|
    requires forall x :: x in sched.jobs <==> x in m.sched.jobs && !(x.job.Delivery? && x.serial in live && p(live[x.serial]))
    ensures Agree(Medium(sched, DropAll(m.queues, p), clients), LiveWithout(live, p))
  {
    hide SchedOk;
    var n, live' := Medium(sched, DropAll(m.queues, p), clients), LiveWithout(live, p);
    forall i | 0 <= i < |n.queues| ensures QueueOk(n.queues[i], i, live') {
      DropQueueOk(m.queues[i], p, i, live);
    }
    hide QueueOk;
    forall k | k in live'
      ensures live'[k].serial == k && live'[k].home < |n.queues| && live'[k] in n.queues[live'[k].home] && live'[k].Job() in n.sched.jobs
    {
      DropFacts(m.queues[live[k].home], p);
      assert live[k].Job().serial == k;
    }
  }

  /** The frame behind a scheduled delivery is at the head of its queue when the delivery is first in line. */
  lemma DeliveredIsHead<F>(m: Medium<F>, live: map<nat, Frame<F>>)
    requires Agree(m, live) && m.sched.jobs != [] && m.sched.jobs[0].job.Delivery?
    ensures var x := m.sched.jobs[0];
      && x.serial in live && live[x.serial].Job() == x && live[x.serial].home < |m.queues|
      && m.queues[live[x.serial].home] != [] && m.queues[live[x.serial].home][0] == live[x.serial]
  {
    var x := m.sched.jobs[0];
    assert x in m.sched.jobs;
    var f := live[x.serial];
    var q := m.queues[f.home];
    assert QueueOk(q, f.home, live);
    var k :| 0 <= k < |q| && q[k] == f;
    var g := q[0];
    assert g.serial in live && g.Job() in m.sched.jobs;
    var i :| 0 <= i < |m.sched.jobs| && m.sched.jobs[i] == g.Job();
    assert i == 0 || Precedes(x, g.Job());
  }

  /** Two queued frames with the same id are the same frame, so an id is on at most one queue, once. */
  lemma IdsDiffer<F>(m: Medium<F>, live: map<nat, Frame<F>>, a: nat, b: nat)
    requires Agree(m, live) && a in live && b in live && live[a].id == live[b].id
    ensures a == b
  {
    var i :| 0 <= i < |m.sched.jobs| && m.sched.jobs[i] == live[a].Job();
    var j :| 0 <= j < |m.sched.jobs| && m.sched.jobs[j] == live[b].Job();
  }

  /** Whenever the first delivery runs, one head leaves its queue and agreement is kept. */
  lemma DeliveryAgrees<F>(m: Medium<F>, live: map<nat, Frame<F>>, time: int)
    requires Agree(m, live) && m.sched.jobs != [] && m.sched.jobs[0].job.Delivery?
    ensures var x, n := m.sched.jobs[0], RunFirstJob(m, time);
      && x.serial in live && live[x.serial].Job() == x && Agree(n, live - {x.serial})
      && (var home := live[x.serial].home;
          home < |m.queues| && m.queues[home] != [] && m.queues[home][0] == live[x.serial]
          && n.queues == m.queues[home := m.queues[home][1..]])
  {
    var x := m.sched.jobs[0];
    var id := x.job.frame;
    DeliveredIsHead(m, live);
    forall n | n in live && live[n].id == id ensures n == x.serial { IdsDiffer(m, live, n, x.serial); }
    assert LiveWithout(live, ById(id)) == live - {x.serial};
    HeadLeaves(m, live, id, x.serial);
    AgreeFacts(m, live);
    RunOk(m.sched, time);
    DeliveryIs(m, live, id);
    hide Agree, SchedOk, TakeFirst;
    FramesLeave(m, live, ById(id), TakeFirst(m.sched, time), m.clients);
  }

  /** Among the scheduled jobs, the first is the one whose frame has its id. */
  lemma DeliveryIs<F>(m: Medium<F>, live: map<nat, Frame<F>>, id: F)
    requires Agree(m, live) && m.sched.jobs != [] && m.sched.jobs[0].job == Delivery(id)
    ensures forall x :: x in m.sched.jobs ==>
      (x != m.sched.jobs[0] <==> !(x.job.Delivery? && x.serial in live && ById(id)(live[x.serial])))
  {
    hide TurnOrder, QueueOk;
    var s := m.sched.jobs;
    forall x | x in s ensures x != s[0] <==> !(x.job.Delivery? && x.serial in live && ById(id)(live[x.serial])) {
      var i :| 0 <= i < |s| && s[i] == x;
      assert i > 0 ==> s[0].job != s[i].job;
      assert s[0] in s;
    }
  }

  lemma ForeignAgrees<F>(m: Medium<F>, live: map<nat, Frame<F>>, sched: State<MJob<F>>)
    requires Agree(m, live) && SchedOk(sched)
    requires forall x: Item<MJob<F>> :: x.job.Delivery? ==> (x in sched.jobs <==> x in m.sched.jobs)
    ensures Agree(m.(sched := sched), live)
  {
    hide SchedOk, QueueOk;
  }

  lemma ForeignRunAgrees<F>(m: Medium<F>, live: map<nat, Frame<F>>, time: int)
    requires Agree(m, live) && m.sched.jobs != [] && m.sched.jobs[0].job.Foreign?
    ensures Agree(RunFirstJob(m, time), live)
  {
    AgreeFacts(m, live);
    RunOk(m.sched, time);
    ForeignAgrees(m, live, TakeFirst(m.sched, time));
    hide Agree, SchedOk, TakeFirst;
  }

  /** Wherever a frame with the first delivery's job is found, it is that delivery's frame, at the head of its queue. */
  lemma FoundIsHead<F>(m: Medium<F>, live: map<nat, Frame<F>>, home: nat, k: nat)
    requires Agree(m, live) && m.sched.jobs != [] && m.sched.jobs[0].job.Delivery?
    requires home < |m.queues| && k < |m.queues[home]| && m.queues[home][k].id == m.sched.jobs[0].job.frame
    ensures var n := m.sched.jobs[0].serial;
      k == 0 && n in live && home == live[n].home && m.queues[home][k] == live[n]
  {
    DeliveredIsHead(m, live);
    var n, f := m.sched.jobs[0].serial, m.queues[home][k];
    assert QueueOk(m.queues[home], home, live);
    assert f.serial in live && live[f.serial] == f && f.home == home;
    IdsDiffer(m, live, f.serial, n);
    FramesRiseFrom(m.queues[home], k);
    hide SchedOk;
  }

  lemma FramesRiseFrom<F>(q: seq<Frame<F>>, k: nat)
    requires FramesRise(q) && k < |q|
    ensures q[0].serial == q[k].serial ==> k == 0
  {
  }

  lemma {:induction false} DropNone<F>(q: seq<Frame<F>>, p: Frame<F> -> bool)
    requires forall k :: 0 <= k < |q| ==> !p(q[k])
    ensures DropWhere(q, p) == q
  {
    if q != [] {
      assert !p(q[0]);
      forall k | 0 <= k < |q[1..]| ensures !p(q[1..][k]) { assert !p(q[k + 1]); }
      DropNone(q[1..], p);
    }
  }

  /** Taking the delivered frame off by its own links is the same as taking the head off its queue. */
  lemma HeadLeaves<F>(m: Medium<F>, live: map<nat, Frame<F>>, id: F, serial: nat)
    requires Agree(m, live) && serial in live && live[serial].id == id
    requires forall n :: n in live && live[n].id == id ==> n == serial
    requires var home := live[serial].home; home < |m.queues| && m.queues[home] != [] && m.queues[home][0] == live[serial]
    ensures var home := live[serial].home; DropAll(m.queues, ById(id)) == m.queues[home := m.queues[home][1..]]
  {
    var home := live[serial].home;
    forall i | 0 <= i < |m.queues|
      ensures DropWhere(m.queues[i], ById(id)) == if i == home then m.queues[i][1..] else m.queues[i]
    {
      QueueIsOk(m, live, i);
      hide Agree, QueueOk, DropWhere;
      HeadLeavesQueue(m.queues[i], i, live, id, serial);
    }
    hide DropWhere, Agree;
  }

  lemma QueueIsOk<F>(m: Medium<F>, live: map<nat, Frame<F>>, i: nat)
    requires Agree(m, live) && i < |m.queues|
    ensures QueueOk(m.queues[i], i, live)
  {
    hide SchedOk, QueueOk;
  }

  lemma HeadLeavesQueue<F>(q: seq<Frame<F>>, i: nat, live: map<nat, Frame<F>>, id: F, serial: nat)
    requires QueueOk(q, i, live) && serial in live && live[serial].id == id
    requires forall n :: n in live && live[n].id == id ==> n == serial
    requires i == live[serial].home ==> q != [] && q[0] == live[serial]
    ensures DropWhere(q, ById(id)) == if i == live[serial].home then q[1..] else q
  {
    if i == live[serial].home {
      forall k | 0 <= k < |q[1..]| ensures q[1..][k].id != id {
        assert q[0].serial < q[k + 1].serial;
      }
      DropNone(q[1..], ById(id));
    } else {
      DropNone(q, ById(id));
    }
  }

  // ---------- remove_client ----------

  /** Some frame of the client on one of the queues has this delivery job. */
  ghost predicate Picked<F>(queues: seq<seq<Frame<F>>>, client: nat, job: MJob<F>) {
    exists i, f :: 0 <= i < |queues| && f in queues[i] && f.src == Some(client) && job == Delivery(f.id)
  }

  lemma {:induction false} ClientFramesFacts<F>(q: seq<Frame<F>>, client: nat)
    ensures forall f :: f in ClientFrames(q, client) <==> f in q && f.src == Some(client)
  {
    if q != [] {
      ClientFramesFacts(q[1..], client);
      assert q == [q[0]] + q[1..];
    }
  }

  lemma {:induction false} DelFramesOk<F>(st: State<MJob<F>>, frames: seq<Frame<F>>)
    requires SchedOk(st)
    ensures var r := DelFrames(st, frames);
      && SchedOk(r) && r == st.(jobs := r.jobs)
      && (forall x :: x in r.jobs <==> x in st.jobs && !(exists f :: f in frames && x.job == Delivery(f.id)))
    decreases |frames|
  {
    if frames != [] {
      DelOk(st, Delivery(frames[0].id));
      DelFramesOk(Del(st, Delivery(frames[0].id)), frames[1..]);
      assert frames == [frames[0]] + frames[1..];
      hide SchedOk, Del;
    }
  }

  lemma {:induction false} DelQueuesOk<F>(st: State<MJob<F>>, queues: seq<seq<Frame<F>>>, client: nat)
    requires SchedOk(st)
    ensures var r := DelQueues(st, queues, client);
      && SchedOk(r) && r == st.(jobs := r.jobs)
      && (forall x :: x in r.jobs <==> x in st.jobs && !Picked(queues, client, x.job))
  {
    if queues != [] {
      var n := |queues| - 1;
      var rest: seq<seq<Frame<F>>> := queues[..n];
      DelQueuesOk(st, rest, client);
      DelFramesOk(DelQueues(st, rest, client), ClientFrames(queues[n], client));
      ClientFramesFacts(queues[n], client);
      hide SchedOk, DelFrames, ClientFrames, Picked;
      var r := DelQueues(st, queues, client);
      forall x ensures x in r.jobs <==> x in st.jobs && !Picked(queues, client, x.job) {
        PickedSplit(queues, client, x.job);
      }
    }
  }

  lemma DelQueuesAt<F>(st: State<MJob<F>>, queues: seq<seq<Frame<F>>>, client: nat, x: Item<MJob<F>>)
    requires SchedOk(st)
    ensures x in DelQueues(st, queues, client).jobs <==> x in st.jobs && !Picked(queues, client, x.job)
  {
    DelQueuesOk(st, queues, client);
    hide SchedOk, DelQueues, Picked;
  }

  lemma PickedSplit<F>(queues: seq<seq<Frame<F>>>, client: nat, job: MJob<F>)
    requires queues != []
    ensures Picked(queues, client, job) <==>
      Picked(queues[..|queues| - 1], client, job) || exists f :: f in ClientFrames(queues[|queues| - 1], client) && job == Delivery(f.id)
  {
    var n := |queues| - 1;
    var rest: seq<seq<Frame<F>>> := queues[..n];
    ClientFramesFacts(queues[n], client);
    if Picked(queues, client, job) {
      var i, f :| 0 <= i < |queues| && f in queues[i] && f.src == Some(client) && job == Delivery(f.id);
      if i < n { assert f in rest[i]; } else { assert f in ClientFrames(queues[n], client); }
    }
    if Picked(rest, client, job) {
      var i, f :| 0 <= i < |rest| && f in rest[i] && f.src == Some(client) && job == Delivery(f.id);
      assert f in queues[i];
    }
    if f :| f in ClientFrames(queues[n], client) && job == Delivery(f.id) {
      assert f in queues[n];
    }
  }

  /** A scheduled job is picked exactly when it is the delivery of one of the client's frames. */
  lemma PickedIs<F>(m: Medium<F>, live: map<nat, Frame<F>>, client: nat, x: Item<MJob<F>>)
    requires Agree(m, live) && x in m.sched.jobs
    ensures Picked(m.queues, client, x.job) <==> x.job.Delivery? && x.serial in live && live[x.serial].src == Some(client)
  {
    hide SchedOk;
    if x.job.Delivery? {
      var f := live[x.serial];
      assert f in m.queues[f.home];
      if i, g :| 0 <= i < |m.queues| && g in m.queues[i] && g.src == Some(client) && x.job == Delivery(g.id) {
        assert QueueOk(m.queues[i], i, live);
        assert g.serial in live && live[g.serial] == g;
        IdsDiffer(m, live, g.serial, x.serial);
      }
    }
  }

  /** Removing a client takes exactly its frames and exactly their delivery jobs. */
  lemma RemoveAgrees<F>(m: Medium<F>, live: map<nat, Frame<F>>, client: nat)
    requires Agree(m, live)
    ensures Agree(Removed(m, client), LiveWithout(live, ByClient(client)))
    ensures Removed(m, client).sched == m.sched.(jobs := Removed(m, client).sched.jobs)
  {
    AgreeFacts(m, live);
    DelQueuesOk(m.sched, m.queues, client);
    forall x | x in m.sched.jobs
      ensures Picked(m.queues, client, x.job) <==> x.job.Delivery? && x.serial in live && ByClient(client)(live[x.serial])
    {
      PickedIs(m, live, client, x);
    }
    hide Agree, SchedOk, Picked, DelQueues;
    FramesLeave(m, live, ByClient(client), Removed(m, client).sched, Removed(m, client).clients);
  }

  /** The stations and queued frames a removal leaves: no station has the client and no frame is from it; all else stays. */
  ghost predicate ClientGone<F>(m: Medium<F>, client: nat, n: Medium<F>) {
    && |n.clients| == |m.clients| && |n.queues| == |m.queues|
    && (forall s :: 0 <= s < |m.clients| ==> n.clients[s] == if m.clients[s] == Some(client) then None else m.clients[s])
    && (forall q, f :: 0 <= q < |m.queues| && f in n.queues[q] ==> f in m.queues[q] && f.src != Some(client))
    && (forall q, f :: 0 <= q < |m.queues| && f in m.queues[q] && f.src != Some(client) ==> f in n.queues[q])
  }

  lemma RemovedLeaves<F>(m: Medium<F>, client: nat)
    ensures ClientGone(m, client, Removed(m, client))
  {
    hide DropWhere, DelQueues;
    var n := Removed(m, client);
    forall q, f | 0 <= q < |m.queues| && f in n.queues[q] ensures f in m.queues[q] && f.src != Some(client) {
      DropFacts(m.queues[q], ByClient(client));
    }
    forall q, f | 0 <= q < |m.queues| && f in m.queues[q] && f.src != Some(client) ensures f in n.queues[q] {
      DropFacts(m.queues[q], ByClient(client));
    }
  }

  // ---------- whole runs ----------

  /** `live` are the queued frames and `air` those plus the delivered ones, both by serial number. */
  datatype Trace<+F> = Trace(m: Medium<F>, live: map<nat, Frame<F>>, air: map<nat, Frame<F>>, delivered: seq<Frame<F>>)

  /** A step of the medium with its history. */
  ghost function TraceStep<F>(t: Trace<F>, op: Op<F>): Trace<F>
    requires Legal(t.m, op)
  {
    var n := Step(t.m, op);
    match op
    case QueueFrame(id, station, ac, duration) =>
      var f := QueuedFrame(t.m, id, station, ac, duration);
      t.(m := n, live := t.live[f.serial := f], air := t.air[f.serial := f])
    case RunNext(_) =>
      var x := t.m.sched.jobs[0];
      if x.job.Delivery? && x.serial in t.live then
        t.(m := n, live := t.live - {x.serial}, delivered := t.delivered + [t.live[x.serial]])
      else t.(m := n)
    case RemoveClient(client) =>
      var live := LiveWithout(t.live, ByClient(client));
      t.(m := n, live := live, air := map k | k in t.air && (k in t.live ==> k in live) :: t.air[k])
    case _ => t.(m := n)
  }

  /** No frame of higher priority is still on the air when one queued after it starts. */
  ghost predicate AirtimeOk<F>(air: map<nat, Frame<F>>) {
    forall i, j :: i in air && j in air && i < j && air[i].Ac() <= air[j].Ac() ==> air[i].start <= air[j].start - air[j].duration
  }

  /** Frames on the air were queued; the delivered ones are on the air and no longer queued. */
  ghost predicate History<F>(live: map<nat, Frame<F>>, air: map<nat, Frame<F>>, delivered: seq<Frame<F>>, adds: nat) {
    && (forall n :: n in live ==> n in air && air[n] == live[n])
    && (forall n :: n in air ==> n < adds)
    && (forall k :: 0 <= k < |delivered| ==> delivered[k].serial in air && delivered[k].serial !in live && air[delivered[k].serial] == delivered[k])
  }

  ghost predicate Invariant<F>(t: Trace<F>) {
    Agree(t.m, t.live) && History(t.live, t.air, t.delivered, t.m.sched.adds)
  }

  lemma HistoryQueues<F>(live: map<nat, Frame<F>>, air: map<nat, Frame<F>>, delivered: seq<Frame<F>>, adds: nat, f: Frame<F>)
    requires History(live, air, delivered, adds) && f.serial == adds
    ensures History(live[adds := f], air[adds := f], delivered, adds + 1)
  {
  }

  lemma HistoryDelivers<F>(live: map<nat, Frame<F>>, air: map<nat, Frame<F>>, delivered: seq<Frame<F>>, adds: nat, serial: nat)
    requires History(live, air, delivered, adds) && serial in live && live[serial].serial == serial
    ensures History(live - {serial}, air, delivered + [live[serial]], adds)
  {
  }

  lemma HistoryRemoves<F>(live: map<nat, Frame<F>>, air: map<nat, Frame<F>>, delivered: seq<Frame<F>>, adds: nat, left: map<nat, Frame<F>>)
    requires History(live, air, delivered, adds)
    requires forall n :: n in left ==> n in live && left[n] == live[n]
    ensures History(left, (map k | k in air && (k in live ==> k in left) :: air[k]), delivered, adds)
  {
  }

  lemma HistoryAges<F>(live: map<nat, Frame<F>>, air: map<nat, Frame<F>>, delivered: seq<Frame<F>>, adds: nat, more: nat)
    requires History(live, air, delivered, adds) && adds <= more
    ensures History(live, air, delivered, more)
  {
  }

  lemma StepQueue<F>(t: Trace<F>, op: Op<F>)
    requires Invariant(t) && Legal(t.m, op) && op.QueueFrame?
    ensures Invariant(TraceStep(t, op))
  {
    var f := QueuedFrame(t.m, op.id, op.station, op.ac, op.duration);
    QueueAgrees(t.m, t.live, op.id, op.station, op.ac, op.duration);
    hide Agree, Target, IsTarget, History;
    HistoryQueues(t.live, t.air, t.delivered, t.m.sched.adds, f);
    QueuedClock(t.m, op.id, op.station, op.ac, op.duration);
    hide Queued, QueuedFrame;
  }

  lemma QueuedClock<F>(m: Medium<F>, id: F, station: nat, ac: nat, duration: int)
    requires station < |m.clients| && ac < NUM_ACS && |m.queues| == NUM_ACS * |m.clients|
    ensures Queued(m, id, station, ac, duration).sched.adds == m.sched.adds + 1
    ensures Queued(m, id, station, ac, duration).sched.now == m.sched.now
  {
  }

  lemma QueuedBelow<F>(m: Medium<F>, live: map<nat, Frame<F>>, n: nat, t: int, ac: nat)
    requires Agree(m, live) && n in live && live[n].Ac() <= ac && IsTarget(t, m.sched.now, m.queues, ac)
    ensures live[n].start <= t
  {
    hide SchedOk, QueueOk;
    var f := live[n];
    var k :| 0 <= k < |m.queues[f.home]| && m.queues[f.home][k] == f;
  }

  lemma StepRun<F>(t: Trace<F>, time: int)
    requires Invariant(t) && t.m.sched.jobs != [] && t.m.sched.now <= time
    ensures Invariant(TraceStep(t, Op<F>.RunNext(time)))
  {
    AgreeFacts(t.m, t.live);
    RunOk(t.m.sched, time);
    var x, r := t.m.sched.jobs[0], TakeFirst(t.m.sched, time);
    assert x in t.m.sched.jobs && RunFirstJob(t.m, time).sched == r;
    if x.job.Delivery? {
      DeliveryAgrees(t.m, t.live, time);
      hide Agree, SchedOk, TakeFirst;
      HistoryDelivers(t.live, t.air, t.delivered, t.m.sched.adds, x.serial);
      hide History, RunFirstJob;
    } else {
      ForeignAgrees(t.m, t.live, r);
      hide Agree, SchedOk, History;
    }
  }

  lemma StepRemove<F>(t: Trace<F>, client: nat)
    requires Invariant(t) && Legal(t.m, RemoveClient(client))
    ensures Invariant(TraceStep(t, RemoveClient(client)))
  {
    RemoveAgrees(t.m, t.live, client);
    HistoryRemoves(t.live, t.air, t.delivered, t.m.sched.adds, LiveWithout(t.live, ByClient(client)));
    hide Agree, Removed, History, LiveWithout;
  }

  lemma StepOther<F>(t: Trace<F>, op: Op<F>)
    requires Invariant(t) && Legal(t.m, op)
    requires op.SetClient? || op.AddForeign? || op.DelForeign? || op.Advance?
    ensures Invariant(TraceStep(t, op))
  {
    AgreeFacts(t.m, t.live);
    match op
    case AddForeign(job, start, priority, group) =>
      AddOk(t.m.sched, Foreign(job), start, priority, group);
      ForeignAgrees(t.m, t.live, Add(Unbounded, t.m.sched, Foreign(job), start, priority, group));
      HistoryAges(t.live, t.air, t.delivered, t.m.sched.adds, t.m.sched.adds + 1);
      hide Agree, SchedOk, History, Add;
    case DelForeign(job) =>
      DelOk(t.m.sched, Foreign(job));
      ForeignAgrees(t.m, t.live, Del(t.m.sched, Foreign(job)));
      hide Agree, SchedOk, History;
    case Advance(time) =>
      ForeignAgrees(t.m, t.live, t.m.sched.(now := time));
      hide Agree, History;
    case SetClient(_, _) => hide SchedOk, QueueOk, History;
  }

  lemma StepKeeps<F>(t: Trace<F>, op: Op<F>)
    requires Invariant(t) && Legal(t.m, op)
    ensures Invariant(TraceStep(t, op))
  {
    match op
    case QueueFrame(_, _, _, _) => StepQueue(t, op);
    case RunNext(time) => StepRun(t, time);
    case RemoveClient(client) => StepRemove(t, client);
    case _ => StepOther(t, op);
  }

  ghost predicate LegalRun<F>(t: Trace<F>, ops: seq<Op<F>>)
    decreases |ops|
  {
    ops == [] || (Legal(t.m, ops[0]) && LegalRun(TraceStep(t, ops[0]), ops[1..]))
  }

  ghost function Execute<F>(t: Trace<F>, ops: seq<Op<F>>): Trace<F>
    requires LegalRun(t, ops)
    decreases |ops|
  {
    if ops == [] then t else Execute(TraceStep(t, ops[0]), ops[1..])
  }

  /**
   * In every reachable state, however early or late the waits of the program let jobs run, a frame is
   * queued exactly when its delivery is scheduled, in one place and in the order of deliveries.
   */
  lemma {:induction false} MediumRun<F>(t: Trace<F>, ops: seq<Op<F>>)
    requires Invariant(t) && LegalRun(t, ops)
    ensures Invariant(Execute(t, ops))
    decreases |ops|
  {
    if ops != [] {
      StepKeeps(t, ops[0]);
      MediumRun(TraceStep(t, ops[0]), ops[1..]);
    }
  }

  /** No station has the client, and no queued frame is from it. */
  ghost predicate Unknown<F>(m: Medium<F>, client: nat) {
    && (forall s :: 0 <= s < |m.clients| ==> m.clients[s] != Some(client))
    && (forall q, f :: 0 <= q < |m.queues| && f in m.queues[q] ==> f.src != Some(client))
  }

  lemma StepStaysUnknown<F>(m: Medium<F>, op: Op<F>, client: nat)
    requires Legal(m, op) && Unknown(m, client) && !(op.SetClient? && op.client == client)
    ensures Unknown(Step(m, op), client)
  {
    hide Target, DelQueues, DropWhere, Add, Del;
    match op
    case RemoveClient(c) => RemovedLeaves(m, c);
    case RunNext(time) =>
      if m.sched.jobs[0].job.Delivery? {
        var id := m.sched.jobs[0].job.frame;
        var n := Step(m, op);
        forall q, f | 0 <= q < |m.queues| && f in n.queues[q] ensures f in m.queues[q] {
          DropFacts(m.queues[q], ById(id));
        }
      }
    case _ =>
  }

  /**
   * From a client's removal until a station is given to it again, no station has it, and no frame is
   * queued as coming from it.
   */
  lemma {:induction false} RemovedStaysUnknown<F>(t: Trace<F>, ops: seq<Op<F>>, client: nat)
    requires LegalRun(t, ops) && Unknown(t.m, client)
    requires forall i :: 0 <= i < |ops| && ops[i].SetClient? ==> ops[i].client != client
    ensures Unknown(Execute(t, ops).m, client)
    decreases |ops|
  {
    if ops != [] {
      StepStaysUnknown(t.m, ops[0], client);
      hide Unknown, Legal, Step;
      RemovedStaysUnknown(TraceStep(t, ops[0]), ops[1..], client);
    }
  }

  lemma RemovalMakesUnknown<F>(t: Trace<F>, client: nat)
    requires Legal(t.m, RemoveClient(client))
    ensures Unknown(TraceStep(t, RemoveClient(client)).m, client)
  {
    RemovedLeaves(t.m, client);
    hide Removed, LiveWithout;
  }

  function StartMedium<F>(now: int, stations: nat): Medium<F> {
    Medium(State(now, [], [], {}, None, 0, Sync(false, false, false, 0, false, 0, [])),
           seq(NUM_ACS * stations, _ => []), seq(stations, _ => None))
  }

  function StartTrace<F>(now: int, stations: nat): Trace<F> {
    Trace<F>.Trace(StartMedium(now, stations), map[], map[], [])
  }

  lemma StartAgrees<F>(now: int, stations: nat)
    ensures Invariant(StartTrace<F>(now, stations))
  {
  }

  // ---------- air time ----------

  /** The frame to be queued begins its air time no earlier than any delivered frame it must follow has ended. */
  ghost predicate Clear<F>(t: Trace<F>, op: Op<F>) {
    op.QueueFrame? ==>
      forall n :: n in t.air && n !in t.live && t.air[n].Ac() <= op.ac ==> t.air[n].start <= Target(t.m.sched.now, t.m.queues, op.ac)
  }

  ghost predicate ClearRun<F>(t: Trace<F>, ops: seq<Op<F>>)
    requires LegalRun(t, ops)
    decreases |ops|
  {
    ops == [] || (Clear(t, ops[0]) && ClearRun(TraceStep(t, ops[0]), ops[1..]))
  }

  /** No air time overlaps in any state of the run. */
  ghost predicate NeverOverlaps<F>(t: Trace<F>, ops: seq<Op<F>>)
    requires LegalRun(t, ops)
    decreases |ops|
  {
    AirtimeOk(t.air) && (ops == [] || NeverOverlaps(TraceStep(t, ops[0]), ops[1..]))
  }

  lemma AirQueues<F>(air: map<nat, Frame<F>>, f: Frame<F>)
    requires AirtimeOk(air) && (forall n :: n in air ==> n < f.serial)
    ensures AirtimeOk(air[f.serial := f]) <==> forall n :: n in air && air[n].Ac() <= f.Ac() ==> air[n].start <= f.start - f.duration
  {
    var r := air[f.serial := f];
    if AirtimeOk(r) {
      forall n | n in air && air[n].Ac() <= f.Ac() ensures air[n].start <= f.start - f.duration {
        assert n in r && f.serial in r && r[n] == air[n];
      }
    }
  }

  lemma QueuedFields<F>(t: Trace<F>, op: Op<F>)
    requires Legal(t.m, op) && op.QueueFrame?
    ensures var f := QueuedFrame(t.m, op.id, op.station, op.ac, op.duration);
      && TraceStep(t, op).air == t.air[f.serial := f] && f.serial == t.m.sched.adds && f.Ac() == op.ac
      && f.start - f.duration == Target(t.m.sched.now, t.m.queues, op.ac)
  {
    HomeAc(op.station, op.ac);
    hide Target, Queued;
  }

  lemma StepOverlapsQueue<F>(t: Trace<F>, op: Op<F>)
    requires Invariant(t) && Legal(t.m, op) && AirtimeOk(t.air) && op.QueueFrame?
    ensures AirtimeOk(TraceStep(t, op).air) <==> Clear(t, op)
  {
    var f, time := QueuedFrame(t.m, op.id, op.station, op.ac, op.duration), Target(t.m.sched.now, t.m.queues, op.ac);
    hide Agree, Target, IsTarget, AirtimeOk, TraceStep, QueuedFrame;
    QueuedFields(t, op);
    assert IsTarget(time, t.m.sched.now, t.m.queues, op.ac) by {
      AgreeFacts(t.m, t.live);
      TargetIsMax(t.m.sched.now, t.m.queues, op.ac);
    }
    hide Legal;
    forall n | n in t.live && t.live[n].Ac() <= op.ac ensures t.live[n].start <= time {
      QueuedBelow(t.m, t.live, n, time, op.ac);
    }
    AirQueues(t.air, f);
  }

  /** A step keeps air times apart exactly when it is clear; frames still queued are never in the way. */
  lemma StepOverlaps<F>(t: Trace<F>, op: Op<F>)
    requires Invariant(t) && Legal(t.m, op) && AirtimeOk(t.air)
    ensures AirtimeOk(TraceStep(t, op).air) <==> Clear(t, op)
  {
    if op.QueueFrame? {
      StepOverlapsQueue(t, op);
    } else {
      hide Agree, Step, LiveWithout;
    }
  }

  /**
   * In no state of a run do air times overlap if and only if, whenever a frame is queued, no frame of
   * equal or higher priority that was delivered already is due after all those still queued and now.
   */
  lemma {:induction false} NeverOverlapsExactly<F>(t: Trace<F>, ops: seq<Op<F>>)
    requires Invariant(t) && AirtimeOk(t.air) && LegalRun(t, ops)
    ensures NeverOverlaps(t, ops) <==> ClearRun(t, ops)
    decreases |ops|
  {
    if ops != [] {
      StepOverlaps(t, ops[0]);
      StepKeeps(t, ops[0]);
      hide Invariant, AirtimeOk, Clear, Legal, TraceStep;
      var u := TraceStep(t, ops[0]);
      if Clear(t, ops[0]) {
        NeverOverlapsExactly(u, ops[1..]);
      } else {
        OverlapNow(u, ops[1..]);
      }
    }
  }

  lemma OverlapNow<F>(t: Trace<F>, ops: seq<Op<F>>)
    requires LegalRun(t, ops) && !AirtimeOk(t.air)
    ensures !NeverOverlaps(t, ops)
  {
  }

  /** No delivery runs before its start. */
  ghost predicate NoneEarly<F>(t: Trace<F>, ops: seq<Op<F>>)
    requires LegalRun(t, ops)
    decreases |ops|
  {
    ops == [] || (
      && (ops[0].RunNext? && t.m.sched.jobs[0].job.Delivery? ==> t.m.sched.jobs[0].start <= ops[0].time)
      && NoneEarly(TraceStep(t, ops[0]), ops[1..]))
  }

  /** Every frame on the air is queued, or delivered and not due after now. */
  ghost predicate DeliveredDue<F>(t: Trace<F>) {
    forall n :: n in t.air && n !in t.live ==> t.air[n].start <= t.m.sched.now
  }

  lemma DueIsClear<F>(t: Trace<F>, op: Op<F>)
    requires DeliveredDue(t) && Invariant(t) && Legal(t.m, op)
    ensures Clear(t, op)
  {
    if op.QueueFrame? {
      AgreeFacts(t.m, t.live);
      TargetIsMax(t.m.sched.now, t.m.queues, op.ac);
    }
    hide Agree, Target;
  }

  lemma StepDue<F>(t: Trace<F>, op: Op<F>)
    requires DeliveredDue(t) && Invariant(t) && Legal(t.m, op)
    requires op.RunNext? && t.m.sched.jobs[0].job.Delivery? ==> t.m.sched.jobs[0].start <= op.time
    ensures DeliveredDue(TraceStep(t, op))
  {
    match op
    case QueueFrame(id, station, ac, duration) =>
      QueuedClock(t.m, id, station, ac, duration);
      hide Agree, Queued;
    case RunNext(time) =>
      if t.m.sched.jobs[0].job.Delivery? { DeliveryAgrees(t.m, t.live, time); }
      hide Agree;
    case RemoveClient(client) =>
      RemoveAgrees(t.m, t.live, client);
      hide Agree, Removed, LiveWithout;
    case AddForeign(_, _, _, _) => hide Agree, Insert;
    case _ => hide Agree;
  }

  /** If no delivery runs before its start, each queueing is clear. */
  lemma {:induction false} NoneEarlyIsClear<F>(t: Trace<F>, ops: seq<Op<F>>)
    requires DeliveredDue(t) && Invariant(t) && LegalRun(t, ops) && NoneEarly(t, ops)
    ensures ClearRun(t, ops)
    decreases |ops|
  {
    if ops != [] {
      DueIsClear(t, ops[0]);
      StepDue(t, ops[0]);
      StepKeeps(t, ops[0]);
      hide Invariant, DeliveredDue, Clear, Legal, TraceStep;
      NoneEarlyIsClear(TraceStep(t, ops[0]), ops[1..]);
    }
  }

  lemma {:induction false} NeverOverlapsLast<F>(t: Trace<F>, ops: seq<Op<F>>)
    requires LegalRun(t, ops) && NeverOverlaps(t, ops)
    ensures AirtimeOk(Execute(t, ops).air)
    decreases |ops|
  {
    if ops != [] {
      hide AirtimeOk, Legal, TraceStep;
      NeverOverlapsLast(TraceStep(t, ops[0]), ops[1..]);
    }
  }

  /**
   * In a run with clear queueings, of two delivered frames the one queued later, of no higher priority,
   * starts its transmission only when the other's has ended.
   */
  lemma DeliveredDoNotOverlap<F>(now: int, stations: nat, ops: seq<Op<F>>, j: nat, k: nat)
    requires LegalRun(StartTrace<F>(now, stations), ops) && ClearRun(StartTrace<F>(now, stations), ops)
    requires var d := Execute(StartTrace<F>(now, stations), ops).delivered;
      j < |d| && k < |d| && d[j].serial < d[k].serial && d[j].Ac() <= d[k].Ac()
    ensures var d := Execute(StartTrace<F>(now, stations), ops).delivered;
      d[j].start <= d[k].start - d[k].duration
  {
    var t := StartTrace<F>(now, stations);
    StartAgrees<F>(now, stations);
    MediumRun(t, ops);
    NeverOverlapsExactly(t, ops);
    NeverOverlapsLast(t, ops);
    hide Agree, LegalRun, ClearRun, NeverOverlaps, Execute, StartTrace;
  }

  /** In particular if no delivery runs before its start, whatever runs late. */
  lemma NoneEarlyDoNotOverlap<F>(now: int, stations: nat, ops: seq<Op<F>>, j: nat, k: nat)
    requires LegalRun(StartTrace<F>(now, stations), ops) && NoneEarly(StartTrace<F>(now, stations), ops)
    requires var d := Execute(StartTrace<F>(now, stations), ops).delivered;
      j < |d| && k < |d| && d[j].serial < d[k].serial && d[j].Ac() <= d[k].Ac()
    ensures var d := Execute(StartTrace<F>(now, stations), ops).delivered;
      d[j].start <= d[k].start - d[k].duration
  {
    StartAgrees<F>(now, stations);
    NoneEarlyIsClear(StartTrace<F>(now, stations), ops);
    DeliveredDoNotOverlap(now, stations, ops, j, k);
  }

  // ---------- the job list read queue by queue ----------

  /** The delivery jobs of q's frames, in job-list order. */
  ghost function Restrict<F>(s: seq<Item<MJob<F>>>, q: seq<Frame<F>>): seq<Item<MJob<F>>> {
    if s == [] then []
    else if exists k :: 0 <= k < |q| && q[k].Job() == s[0] then [s[0]] + Restrict(s[1..], q)
    else Restrict(s[1..], q)
  }

  function Jobs<F>(q: seq<Frame<F>>): (r: seq<Item<MJob<F>>>)
    ensures |r| == |q| && forall k :: 0 <= k < |q| ==> r[k] == q[k].Job()
  {
    seq(|q|, k requires 0 <= k < |q| => q[k].Job())
  }

  lemma {:induction false} RestrictFacts<F>(s: seq<Item<MJob<F>>>, q: seq<Frame<F>>)
    requires TurnOrder(s)
    ensures TurnOrder(Restrict(s, q))
    ensures forall x :: x in Restrict(s, q) ==> x in s && x in Jobs(q)
    ensures forall x :: x in s && x in Jobs(q) ==> x in Restrict(s, q)
  {
    if s != [] {
      assert TurnOrder(s[1..]) by { assert forall i :: 0 <= i < |s[1..]| ==> s[1..][i] == s[i + 1]; }
      RestrictFacts(s[1..], q);
      assert s == [s[0]] + s[1..];
      var r := Restrict(s[1..], q);
      forall j | 0 <= j < |r| ensures Precedes(s[0], r[j]) {
        assert r[j] in r && r[j] in s[1..];
        var i :| 0 <= i < |s[1..]| && s[1..][i] == r[j];
        assert r[j] == s[i + 1];
      }
      assert s[0] in Jobs(q) <==> exists k :: 0 <= k < |q| && q[k].Job() == s[0];
    }
  }

  lemma FirstInTurn<T>(a: seq<Item<T>>, x: Item<T>)
    requires TurnOrder(a) && x in a
    ensures x == a[0] || Precedes(a[0], x)
  {
    var i :| 0 <= i < |a| && a[i] == x;
    if i > 0 { assert Precedes(a[0], a[i]); }
  }

  /** Sequences in strict turn order with the same members are the same. */
  lemma {:induction false} TurnOrderUnique<T>(a: seq<Item<T>>, b: seq<Item<T>>)
    requires TurnOrder(a) && TurnOrder(b)
    requires (forall x :: x in a ==> x in b) && (forall x :: x in b ==> x in a)
    ensures a == b
  {
    assert a == [] || a[0] in a;
    assert b == [] || b[0] in b;
    if a != [] {
      FirstInTurn(a, b[0]);
      FirstInTurn(b, a[0]);
      TailMembers(a);
      TailMembers(b);
      TurnOrderUnique(a[1..], b[1..]);
    }
  }

  lemma TailMembers<T>(a: seq<Item<T>>)
    requires TurnOrder(a) && a != []
    ensures TurnOrder(a[1..]) && forall x :: x in a[1..] <==> x in a && x != a[0]
  {
    assert a == [a[0]] + a[1..];
    forall i | 0 <= i < |a[1..]| ensures a[1..][i] == a[i + 1] && a[1..][i] != a[0] { assert Precedes(a[0], a[i + 1]); }
  }

  /** The job list restricted to a queue is the queue, in the same order, whatever starts tie. */
  lemma RestrictIsQueue<F>(m: Medium<F>, live: map<nat, Frame<F>>, home: nat)
    requires Agree(m, live) && home < |m.queues|
    ensures Restrict(m.sched.jobs, m.queues[home]) == Jobs(m.queues[home])
  {
    var q := m.queues[home];
    assert QueueOk(q, home, live);
    assert TurnOrder(Jobs(q));
    RestrictFacts(m.sched.jobs, q);
    forall x | x in Jobs(q) ensures x in m.sched.jobs {
      var k :| 0 <= k < |q| && q[k].Job() == x;
      assert q[k].serial in live;
    }
    TurnOrderUnique(Restrict(m.sched.jobs, q), Jobs(q));
  }
}
