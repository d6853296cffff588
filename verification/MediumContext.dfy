/** The simulator's context: what queue_frame, a delivery and remove_client do to stations, queues and jobs. */
module MediumContext {
  import opened Clock
  import opened Common
  import opened SchedState
  import opened MediumRuns
  import Retry

  /** wqueue_init's contention windows, as station_init_queues sets them. */
  function CwMin(ac: nat): nat {
    if ac == AC_VO then 3 else if ac == AC_VI then 7 else 15
  }

  function CwMax(ac: nat): nat {
    if ac == AC_VO then 7 else if ac == AC_VI then 15 else 1023
  }

  // ---------- the scan for the target ----------

  /** The scan has looked at queue n: all of the categories below i, and those of category i below station s. */
  predicate Scanned(n: nat, i: nat, s: nat) {
    n % NUM_ACS < i || (n % NUM_ACS == i && n / NUM_ACS < s)
  }

  ghost predicate TailMax<F>(t: int, now: int, queues: seq<seq<Frame<F>>>, i: nat, s: nat) {
    && now <= t
    && (forall n :: 0 <= n < |queues| && Scanned(n, i, s) && queues[n] != [] ==> queues[n][|queues[n]| - 1].start <= t)
    && (t == now || exists n :: 0 <= n < |queues| && Scanned(n, i, s) && queues[n] != [] && queues[n][|queues[n]| - 1].start == t)
  }

  lemma {:induction false} TargetIsTailMax<F>(now: int, queues: seq<seq<Frame<F>>>, ac: nat)
    ensures TailMax(Target(now, queues, ac), now, queues, ac + 1, 0)
  {
    if queues != [] {
      var k := |queues| - 1;
      var rest: seq<seq<Frame<F>>> := queues[..k];
      TargetIsTailMax(now, rest, ac);
      var t := Target(now, rest, ac);
      if t != now {
        var n: nat :| n < |rest| && Scanned(n, ac + 1, 0) && rest[n] != [] && rest[n][|rest[n]| - 1].start == t;
        assert queues[n] == rest[n];
      }
      assert Scanned(k, ac + 1, 0) <==> k % NUM_ACS <= ac;
      forall n | 0 <= n < |queues| && Scanned(n, ac + 1, 0) && queues[n] != []
        ensures queues[n][|queues[n]| - 1].start <= Target(now, queues, ac)
      {
        if n < k { assert queues[n] == rest[n]; }
      }
    }
  }

  lemma TailMaxUnique<F>(t: int, u: int, now: int, queues: seq<seq<Frame<F>>>, i: nat, s: nat)
    requires TailMax(t, now, queues, i, s) && TailMax(u, now, queues, i, s)
    ensures t == u
  {
  }

  lemma ScanStep<F>(t: int, now: int, queues: seq<seq<Frame<F>>>, i: nat, s: nat)
    requires TailMax(t, now, queues, i, s) && i < NUM_ACS && NUM_ACS * s + i < |queues|
    ensures TailMax(TailStart(t, queues[NUM_ACS * s + i]), now, queues, i, s + 1)
  {
    var k := NUM_ACS * s + i;
    forall n: nat ensures Scanned(n, i, s + 1) <==> Scanned(n, i, s) || n == k {}
    hide Scanned;
    var u := TailStart(t, queues[k]);
    if u == t && t != now {
      var n: nat :| n < |queues| && Scanned(n, i, s) && queues[n] != [] && queues[n][|queues[n]| - 1].start == t;
      assert Scanned(n, i, s + 1);
    }
  }

  lemma ScanNext<F>(t: int, now: int, queues: seq<seq<Frame<F>>>, i: nat, s: nat)
    requires TailMax(t, now, queues, i, s) && i < NUM_ACS && |queues| == NUM_ACS * s
    ensures TailMax(t, now, queues, i + 1, 0)
  {
    forall n: nat | n < |queues| ensures Scanned(n, i + 1, 0) <==> Scanned(n, i, s) {}
    hide Scanned;
  }

  // ---------- sequences of deletions ----------

  lemma {:induction false} DropSnoc<F>(q: seq<Frame<F>>, f: Frame<F>, p: Frame<F> -> bool)
    ensures DropWhere(q + [f], p) == DropWhere(q, p) + if p(f) then [] else [f]
  {
    if q == [] {
      assert [f][1..] == [];
    } else {
      assert (q + [f])[1..] == q[1..] + [f];
      DropSnoc(q[1..], f, p);
    }
  }

  lemma {:induction false} ClientSnoc<F>(q: seq<Frame<F>>, f: Frame<F>, client: nat)
    ensures ClientFrames(q + [f], client) == ClientFrames(q, client) + if f.src == Some(client) then [f] else []
  {
    if q == [] {
      assert [f][1..] == [];
    } else {
      assert (q + [f])[1..] == q[1..] + [f];
      ClientSnoc(q[1..], f, client);
    }
  }

  lemma {:induction false} DelSnoc<F>(st: State<MJob<F>>, frames: seq<Frame<F>>, f: Frame<F>)
    ensures DelFrames(st, frames + [f]) == Del(DelFrames(st, frames), Delivery(f.id))
    decreases |frames|
  {
    if frames == [] {
      assert [f][1..] == [];
      assert DelFrames(Del(st, Delivery(f.id)), []) == Del(st, Delivery(f.id));
    } else {
      assert (frames + [f])[1..] == frames[1..] + [f];
      DelSnoc(Del(st, Delivery(frames[0].id)), frames[1..], f);
    }
  }

  /** A queue after the removal's iteration has looked at its first k frames. */
  ghost function Thinned<F>(q: seq<Frame<F>>, k: nat, client: nat): seq<Frame<F>>
    requires k <= |q|
  {
    DropWhere(q[..k], ByClient(client)) + q[k..]
  }

  /** Where the iteration then stands. */
  ghost function Cursor<F>(q: seq<Frame<F>>, k: nat, client: nat): nat
    requires k <= |q|
  {
    |DropWhere(q[..k], ByClient(client))|
  }

  lemma ThinnedEnds<F>(q: seq<Frame<F>>, client: nat, st: State<MJob<F>>)
    ensures Thinned(q, 0, client) == q && Cursor(q, 0, client) == 0
    ensures Thinned(q, |q|, client) == DropWhere(q, ByClient(client))
    ensures DelFrames(st, ClientFrames(q[..0], client)) == st && q[..|q|] == q
  {
    assert q[..|q|] == q;
  }

  lemma ThinnedStep<F>(q: seq<Frame<F>>, k: nat, client: nat, st: State<MJob<F>>)
    requires k < |q|
    ensures var t, p, gone := Thinned(q, k, client), Cursor(q, k, client), q[k].src == Some(client);
      && p < |t| && t[p] == q[k]
      && Thinned(q, k + 1, client) == (if gone then t[..p] + t[p + 1..] else t)
      && Cursor(q, k + 1, client) == (if gone then p else p + 1)
      && DelFrames(st, ClientFrames(q[..k + 1], client)) ==
           (var d := DelFrames(st, ClientFrames(q[..k], client)); if gone then Del(d, Delivery(q[k].id)) else d)
  {
    var f := q[k];
    assert q[..k + 1] == q[..k] + [f] && q[k..] == [f] + q[k + 1..];
    DropSnoc(q[..k], f, ByClient(client));
    ClientSnoc(q[..k], f, client);
    DelSnoc(st, ClientFrames(q[..k], client), f);
    assert ClientFrames(q[..k], client) + [] == ClientFrames(q[..k], client);
    hide DropWhere, ClientFrames, DelFrames, Del;
    var kept := DropWhere(q[..k], ByClient(client));
    assert (kept + q[k..])[..|kept|] == kept && (kept + q[k..])[|kept| + 1..] == q[k + 1..];
    assert (kept + [f]) + q[k + 1..] == kept + q[k..];
    assert kept + [] == kept;
  }

  class Context<F(==)> {
    /** The scheduler, by its abstract state. */
    var sched: State<MJob<F>>
    /** The frame queues of all stations, NUM_ACS each. */
    var queues: seq<seq<Frame<F>>>
    /** The client each station belongs to. */
    var clients: seq<Option<nat>>

    function View(): Medium<F>
      reads this
    {
      Medium(sched, queues, clients)
    }

    constructor (now: int, stations: nat)
      ensures View() == StartMedium<F>(now, stations)
    {
      sched := State(now, [], [], {}, None, 0, Sync(false, false, false, 0, false, 0, []));
      queues := seq(NUM_ACS * stations, _ => []);
      clients := seq(stations, _ => None);
    }

    /** The earliest start after every frame of equal or higher priority: a scan of the queues' tails. */
    method FindTarget(ac: nat) returns (target: int)
      requires ac < NUM_ACS && |queues| == NUM_ACS * |clients|
      ensures target == Target(sched.now, queues, ac)
    {
      target := sched.now;
      var i := 0;
      while i <= ac
        invariant i <= ac + 1 && TailMax(target, sched.now, queues, i, 0)
      {
        var s := 0;
        while s < |clients|
          invariant s <= |clients| && TailMax(target, sched.now, queues, i, s)
        {
          ScanStep(target, sched.now, queues, i, s);
          var q := queues[NUM_ACS * s + i];
          if q != [] && target < q[|q| - 1].start {
            target := q[|q| - 1].start;
          }
          s := s + 1;
        }
        ScanNext(target, sched.now, queues, i, s);
        i := i + 1;
      }
      TargetIsTailMax(sched.now, queues, ac);
      TailMaxUnique(target, Target(sched.now, queues, ac), sched.now, queues, ac + 1, 0);
    }

    /** queue_frame, for a frame of the given station, access category and length */
    method QueueFrame(id: F, station: nat, ac: nat, rates: array<Retry.TxRate>, len: nat, freq: nat, noack: bool,
                      draws: nat -> real, fixed: bool, errorProb: int -> real)
      returns (sendTime: int, acked: bool, ghost used: seq<nat>, ghost target: int)
      requires |queues| == NUM_ACS * |clients| && station < |clients| && ac < NUM_ACS
      requires rates.Length <= 4 && len <= 65535 && forall k :: 0 <= k < rates.Length ==> rates[k].count <= 255
      requires !Listed(sched.jobs, Delivery(id))
      modifies this, rates
      ensures View() == Queued(old(View()), id, station, ac, sendTime)
      ensures TailMax(target, old(sched.now), old(queues), ac + 1, 0) && clients == old(clients)
      ensures var home := 4 * station + ac;
        && queues == old(queues)[home := old(queues)[home] + [Frame(id, clients[station], home, old(sched.adds), target + sendTime, sendTime)]]
        && sched == Add(Unbounded, old(sched), Delivery(id), target + sendTime, 0, 0)
      ensures Legal(old(View()), Op.QueueFrame(id, station, ac, sendTime))
      ensures Retry.Made(old(rates[..]), used, acked, noack, draws, fixed, errorProb)
      ensures !acked ==> Retry.Exhausted(old(rates[..]), used)
      ensures var cwMin, cwMax := if ac == 0 then 3 else if ac == 1 then 7 else 15, if ac == 0 then 7 else if ac == 1 then 15 else 1023;
        sendTime == Retry.SendTime(old(rates[..]), used, len, freq, noack, cwMin, cwMax) < 0x8000_0000
      ensures rates[..] == Retry.Reported(old(rates[..]), used, acked)
    {
      hide Retry.Made, Retry.SendTime, Target, Add;
      ghost var was := rates[..];
      var retries;
      sendTime, acked, retries, used := Retry.Transmit(rates, len, freq, noack, CwMin(ac), CwMax(ac), draws, fixed, errorProb);
      Retry.MadeIndices(was, used, acked, noack, draws, fixed, errorProb);
      Retry.MadeCounts(was, used, acked, noack, draws, fixed, errorProb);
      Retry.SendTimeFits(was, used, len, freq, noack, CwMin(ac), CwMax(ac));
      var start := FindTarget(ac);
      target := start;
      TargetIsTailMax(sched.now, queues, ac);
      start := start + sendTime;
      var home := NUM_ACS * station + ac;
      var f := Frame(id, clients[station], home, sched.adds, start, sendTime);
      sched := Add(Unbounded, sched, Delivery(id), start, 0, 0);
      queues := queues[home := queues[home] + [f]];
    }

    /**
     * The scheduler's next job, at the time the waits for it end, and, if it is a delivery,
     * wmediumd_deliver_frame's list_del: the frame with that job leaves the place where it is queued.
     * Early or late, that is the head of one queue, no other queue changes, and queues and job list go
     * on agreeing.
     */
    method RunNext(time: int, ghost live: map<nat, Frame<F>>) returns (job: MJob<F>, delivered: Option<Frame<F>>)
      requires sched.jobs != [] && sched.now <= time && Agree(View(), live)
      modifies this`sched, this`queues
      ensures job == old(sched.jobs[0].job) && sched == old(sched).(now := time, jobs := old(sched.jobs)[1..])
      ensures job.Foreign? ==> delivered == None && queues == old(queues) && Agree(View(), live)
      ensures job.Delivery? ==>
        var n := old(sched.jobs[0].serial);
        && n in live && delivered == Some(live[n]) && live[n].Job() == old(sched.jobs[0]) && live[n].home < |old(queues)|
        && var q := old(queues)[live[n].home];
        && q != [] && q[0] == live[n] && queues == old(queues)[live[n].home := q[1..]] && Agree(View(), live - {n})
      ensures View() == RunFirstJob(old(View()), time)
    {
      ghost var m := View();
      hide Agree;
      job, delivered := sched.jobs[0].job, None;
      sched := TakeFirst(sched, time);
      if job.Delivery? {
        DeliveryAgrees(m, live, time);
        var f := Unlink(job.frame, m, live);
        delivered := Some(f);
      } else {
        ForeignRunAgrees(m, live, time);
      }
    }

    /** list_del of the frame the first delivery job of m was part of. */
    method Unlink(id: F, ghost m: Medium<F>, ghost live: map<nat, Frame<F>>) returns (f: Frame<F>)
      requires m.sched.jobs != [] && m.sched.jobs[0].job == Delivery(id) && Agree(m, live) && queues == m.queues
      modifies this`queues
      ensures var n := m.sched.jobs[0].serial;
        && n in live && f == live[n] && live[n].Job() == m.sched.jobs[0] && live[n].home < |old(queues)|
        && var q := old(queues)[live[n].home];
        && q != [] && q[0] == live[n] && queues == old(queues)[live[n].home := q[1..]]
    {
      DeliveredIsHead(m, live);
      assert queues[live[m.sched.jobs[0].serial].home][0].id == id;
      var home, k :| 0 <= home < |queues| && 0 <= k < |queues[home]| && queues[home][k].id == id;
      FoundIsHead(m, live, home, k);
      hide Agree;
      f := queues[home][k];
      assert queues[home][..k] + queues[home][k + 1..] == queues[home][1..];
      queues := queues[home := queues[home][..k] + queues[home][k + 1..]];
    }

    /** One queue's turn in wmediumd_remove_client: the iteration that deletes as it goes. */
    method RemoveFrom(n: nat, client: nat)
      requires n < |queues|
      modifies this`sched, this`queues
      ensures queues == old(queues)[n := DropWhere(old(queues)[n], ByClient(client))]
      ensures sched == DelFrames(old(sched), ClientFrames(old(queues)[n], client))
    {
      hide Thinned, Cursor, DelFrames, DropWhere, ClientFrames, Del;
      var q, k, p := queues[n], 0, 0;
      ThinnedEnds(q, client, sched);
      while k < |q|
        invariant k <= |q| && |queues| == |old(queues)| && p == Cursor(q, k, client)
        invariant queues == old(queues)[n := Thinned(q, k, client)]
        invariant sched == DelFrames(old(sched), ClientFrames(q[..k], client))
      {
        ThinnedStep(q, k, client, old(sched));
        if queues[n][p].src == Some(client) {
          sched := Del(sched, Delivery(queues[n][p].id));
          queues := queues[n := queues[n][..p] + queues[n][p + 1..]];
        } else {
          p := p + 1;
        }
        k := k + 1;
      }
    }

    /** The stations' part of wmediumd_remove_client */
    method ClearStations(client: nat)
      modifies this`clients
      ensures clients == Removed(old(View()), client).clients
    {
      var s := 0;
      while s < |clients|
        invariant s <= |clients| == |old(clients)|
        invariant forall k :: 0 <= k < |clients| ==>
          clients[k] == if k < s && old(clients)[k] == Some(client) then None else old(clients)[k]
      {
        if clients[s] == Some(client) { clients := clients[s := None]; }
        s := s + 1;
      }
    }

    /** One station's queues in wmediumd_remove_client. */
    method RemoveFromStation(s: nat, client: nat, ghost was: seq<seq<Frame<F>>>, ghost st: State<MJob<F>>)
      requires NUM_ACS * s + NUM_ACS <= |queues|
      requires ClearedUpTo(was, queues, NUM_ACS * s, client) && sched == DelQueues(st, was[..NUM_ACS * s], client)
      modifies this`sched, this`queues
      ensures ClearedUpTo(was, queues, NUM_ACS * s + NUM_ACS, client)
      ensures sched == DelQueues(st, was[..NUM_ACS * s + NUM_ACS], client)
    {
      hide DropWhere, DelQueues, DelFrames, ClientFrames, Del;
      var ac := 0;
      while ac < NUM_ACS
        invariant ac <= NUM_ACS
        invariant ClearedUpTo(was, queues, NUM_ACS * s + ac, client) && sched == DelQueues(st, was[..NUM_ACS * s + ac], client)
      {
        OneMoreQueue(st, was, NUM_ACS * s + ac, client);
        RemoveFrom(NUM_ACS * s + ac, client);
        ac := ac + 1;
      }
    }

    /**
     * wmediumd_remove_client: no station has the client any more and all others keep theirs; the queues
     * lose exactly its frames, and the scheduler exactly their delivery jobs.
     */
    method RemoveClient(client: nat)
      requires |queues| == NUM_ACS * |clients|
      modifies this
      ensures View() == Removed(old(View()), client)
      ensures |clients| == |old(clients)| && |queues| == |old(queues)|
      ensures forall s :: 0 <= s < |clients| ==> clients[s] == if old(clients)[s] == Some(client) then None else old(clients)[s]
      ensures forall q, f :: 0 <= q < |queues| ==> (f in queues[q] <==> f in old(queues)[q] && f.src != Some(client))
      ensures SchedOk(old(sched)) ==>
        && sched == old(sched).(jobs := sched.jobs)
        && forall x :: x in sched.jobs <==> x in old(sched).jobs && !Picked(old(queues), client, x.job)
    {
      hide DropWhere, DelQueues;
      ghost var was, st := queues, sched;
      ClearStations(client);
      assert was[..0] == [];
      NoQueues(st, client);
      var s := 0;
      while s < |clients|
        invariant s <= |clients| && clients == Removed(old(View()), client).clients
        invariant ClearedUpTo(was, queues, NUM_ACS * s, client) && sched == DelQueues(st, was[..NUM_ACS * s], client)
        modifies this`sched, this`queues
      {
        RemoveFromStation(s, client, was, st);
        s := s + 1;
      }
      assert was[..|was|] == was;
      assert queues == DropAll(was, ByClient(client));
      RemovedLeaves(old(View()), client);
      if SchedOk(st) { DelQueuesOk(st, was, client); }
      hide SchedOk, Picked;
    }
  }

  lemma NoQueues<F>(st: State<MJob<F>>, client: nat)
    ensures DelQueues(st, [], client) == st
  {
  }

  lemma OneMoreQueue<F>(st: State<MJob<F>>, queues: seq<seq<Frame<F>>>, n: nat, client: nat)
    requires n < |queues|
    ensures DelQueues(st, queues[..n + 1], client) == DelFrames(DelQueues(st, queues[..n], client), ClientFrames(queues[n], client))
  {
    assert queues[..n + 1][..n] == queues[..n];
  }

  /** The first n queues have lost the client's frames; the others are as they were. */
  ghost predicate ClearedUpTo<F>(was: seq<seq<Frame<F>>>, queues: seq<seq<Frame<F>>>, n: nat, client: nat) {
    && |queues| == |was|
    && forall i :: 0 <= i < |was| ==> queues[i] == if i < n then DropWhere(was[i], ByClient(client)) else was[i]
  }
}
