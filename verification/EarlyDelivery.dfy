/** A client that leaves while the program waits: its frame's request stays, and another frame is delivered early. */
module EarlyDelivery {
  import opened Clock
  import opened Common
  import opened SchedState
  import opened SchedRuns
  import M = MediumRuns
  import TimeTravel

  /** The queues of two stations. */
  function NoFrames(): (q: seq<seq<M.Frame<int>>>)
    ensures |q| == 8 && forall i :: 0 <= i < 8 ==> q[i] == []
  {
    seq(8, _ => [])
  }

  /** A best-effort frame of client 0, one with the highest priority of client 1, and a later best-effort frame. */
  const A: M.Frame<int> := M.Frame(1, Some(0), 2, 0, 10, 10)
  const B: M.Frame<int> := M.Frame(2, Some(1), 4, 1, 5, 5)
  const C: M.Frame<int> := M.Frame(3, Some(0), 2, 2, 10, 5)

  function Medium(now: int, jobs: seq<Item<M.MJob<int>>>, adds: nat, queues: seq<seq<M.Frame<int>>>, second: Option<nat>): M.Medium<int> {
    M.Medium(State(now, jobs, [], {}, None, adds, Sync(false, false, false, 0, false, 0, [])), queues, [Some(0), second])
  }

  /** Both stations have their clients. */
  function Before(): M.Trace<int> {
    M.Trace(Medium(0, [], 0, NoFrames(), Some(1)), map[], map[], [])
  }

  /** Frames A and B are queued, B due first; the program waits. */
  function Both(): M.Trace<int> {
    var live := map[0 := A, 1 := B];
    M.Trace(Medium(0, [B.Job(), A.Job()], 2, NoFrames()[2 := [A]][4 := [B]], Some(1)), live, live, [])
  }

  /** Client 1 has left. */
  function One(): M.Trace<int> {
    M.Trace(Medium(0, [A.Job()], 2, NoFrames()[2 := [A]], None), map[0 := A], map[0 := A], [])
  }

  /** A has been delivered, at 5. */
  function Early(): M.Trace<int> {
    M.Trace(Medium(5, [], 2, NoFrames(), None), map[], map[0 := A], [A])
  }

  /** C has been queued and delivered. */
  function Overlapped(): M.Trace<int> {
    M.Trace(Medium(10, [], 3, NoFrames(), None), map[], map[0 := A, 2 := C], [A, C])
  }

  lemma NoTarget(now: int, queues: seq<seq<M.Frame<int>>>, ac: nat)
    requires forall i :: 0 <= i < |queues| ==> M.StartsRise(queues[i])
    requires forall i :: 0 <= i < |queues| && i % M.NUM_ACS <= ac ==> queues[i] == []
    ensures M.Target(now, queues, ac) == now
  {
    M.TargetIsMax(now, queues, ac);
    hide M.Target;
  }

  lemma QueueBoth()
    ensures var a, b := M.Op<int>.QueueFrame(1, 0, 2, 10), M.Op<int>.QueueFrame(2, 1, 0, 5);
      M.Legal(Before().m, a) && M.Legal(M.TraceStep(Before(), a).m, b) && M.TraceStep(M.TraceStep(Before(), a), b) == Both()
  {
    var a, b := M.Op<int>.QueueFrame(1, 0, 2, 10), M.Op<int>.QueueFrame(2, 1, 0, 5);
    NoTarget(0, NoFrames(), 2);
    var q := NoFrames()[2 := [A]];
    hide M.Target;
    assert M.QueuedFrame(Before().m, 1, 0, 2, 10) == A && NoFrames()[2] + [A] == [A];
    var t1 := M.TraceStep(Before(), a);
    assert t1.m.sched == Before().m.sched.(jobs := [A.Job()], adds := 1) && t1.m.queues == q;
    assert t1 == M.Trace(Medium(0, [A.Job()], 1, q, Some(1)), map[0 := A], map[0 := A], []);
    NoTarget(0, q, 0);
    assert M.QueuedFrame(t1.m, 2, 1, 0, 5) == B && q[4] + [B] == [B];
    var t2 := M.TraceStep(t1, b);
    assert t2.m.sched.jobs == [B.Job(), A.Job()];
    assert t2.m.queues == q[4 := [B]];
    assert t2.live == map[0 := A, 1 := B] == t2.air;
  }

  lemma LeaveSecond()
    ensures M.Legal(Both().m, M.Op<int>.RemoveClient(1)) && M.TraceStep(Both(), M.Op<int>.RemoveClient(1)) == One()
  {
    var t, q := Both(), NoFrames()[2 := [A]][4 := [B]];
    var n := M.Removed(t.m, 1);
    assert n.queues == NoFrames()[2 := [A]] by {
      assert [A][1..] == [] && [B][1..] == [];
      assert M.DropWhere([A], M.ByClient(1)) == [A] && M.DropWhere([B], M.ByClient(1)) == [];
      forall i | 0 <= i < 8 ensures n.queues[i] == NoFrames()[2 := [A]][i] {
        assert n.queues[i] == M.DropWhere(q[i], M.ByClient(1));
      }
    }
    assert n.clients == [Some(0), None];
    DeletesB(t.m.sched, q);
    assert M.LiveWithout(t.live, M.ByClient(1)) == map[0 := A];
    var air := map k | k in t.air && (k in t.live ==> k in map[0 := A]) :: t.air[k];
    assert air == map[0 := A];
  }

  lemma DeletesB(st: State<M.MJob<int>>, q: seq<seq<M.Frame<int>>>)
    requires st == Both().m.sched && q == NoFrames()[2 := [A]][4 := [B]]
    ensures M.DelQueues(st, q, 1) == st.(jobs := [A.Job()])
  {
    var s, rest := [B.Job(), A.Job()], [A.Job()];
    assert M.SchedOk(st) by { assert Precedes(B.Job(), A.Job()); }
    M.DelQueuesOk(st, q, 1);
    var r := M.DelQueues(st, q, 1);
    assert M.Picked(q, 1, B.Job().job) by { assert B in q[4]; }
    assert !M.Picked(q, 1, A.Job().job) by {
      forall i | 0 <= i < 8 ensures q[i] == if i == 2 then [A] else if i == 4 then [B] else [] {}
    }
    hide M.DelQueues, M.Picked;
    M.DelQueuesAt(st, q, 1, A.Job());
    M.DelQueuesAt(st, q, 1, B.Job());
    assert A.Job() in s && A.Job() in r.jobs && B.Job() !in r.jobs;
    forall x | x in r.jobs ensures x in rest {
      M.DelQueuesAt(st, q, 1, x);
      assert x in s;
    }
    forall x | x in rest ensures x in r.jobs { assert x == A.Job(); }
    M.TurnOrderUnique(r.jobs, rest);
  }

  lemma RunEarly()
    ensures M.Legal(One().m, M.Op<int>.RunNext(5)) && M.TraceStep(One(), M.Op<int>.RunNext(5)) == Early()
  {
    var t := One();
    var q := NoFrames()[2 := [A]];
    var n := M.RunFirstJob(t.m, 5);
    assert n.queues == NoFrames() by {
      assert [A][1..] == [] && M.DropWhere([A], M.ById(1)) == [];
      forall i | 0 <= i < 8 ensures n.queues[i] == [] { assert n.queues[i] == M.DropWhere(q[i], M.ById(1)); }
    }
    assert t.live - {0} == map[];
  }

  lemma QueueAndRunLast()
    ensures var c := M.Op<int>.QueueFrame(3, 0, 2, 5);
      && M.Legal(Early().m, c) && M.Legal(M.TraceStep(Early(), c).m, M.Op<int>.RunNext(10))
      && M.TraceStep(M.TraceStep(Early(), c), M.Op<int>.RunNext(10)) == Overlapped() && !M.Clear(Early(), c)
  {
    var c := M.Op<int>.QueueFrame(3, 0, 2, 5);
    NoTarget(5, NoFrames(), 2);
    hide M.Target;
    assert M.QueuedFrame(Early().m, 3, 0, 2, 5) == C && NoFrames()[2] + [C] == [C];
    var t := M.TraceStep(Early(), c);
    var q := NoFrames()[2 := [C]];
    assert t.m.sched == Early().m.sched.(jobs := [C.Job()], adds := 3) && t.m.queues == q;
    assert t.live == map[2 := C] && t.air == map[0 := A, 2 := C];
    assert t == M.Trace(Medium(5, [C.Job()], 3, q, None), map[2 := C], map[0 := A, 2 := C], [A]);
    var n := M.RunFirstJob(t.m, 10);
    assert n.queues == NoFrames() by {
      assert [C][1..] == [] && M.DropWhere([C], M.ById(3)) == [];
      forall i | 0 <= i < 8 ensures n.queues[i] == [] { assert n.queues[i] == M.DropWhere(q[i], M.ById(3)); }
    }
    assert t.live - {2} == map[];
    assert Early().air[0] == A && 0 !in Early().live;
  }

  lemma Connect()
    ensures var s := M.StartTrace<int>(0, 2); var a, b := M.Op<int>.SetClient(0, 0), M.Op<int>.SetClient(1, 1);
      M.Legal(s.m, a) && M.Legal(M.TraceStep(s, a).m, b) && M.TraceStep(M.TraceStep(s, a), b) == Before()
  {
    var s := M.StartTrace<int>(0, 2);
    assert s.m.queues == NoFrames() && s.m.clients == [None, None];
    var t := M.TraceStep(s, M.Op<int>.SetClient(0, 0));
    assert t.m.clients == [Some(0), None];
    assert M.TraceStep(t, M.Op<int>.SetClient(1, 1)).m.clients == [Some(0), Some(1)];
  }

  function Ops(): seq<M.Op<int>> {
    [M.Op<int>.SetClient(0, 0), M.Op<int>.SetClient(1, 1), M.Op<int>.QueueFrame(1, 0, 2, 10), M.Op<int>.QueueFrame(2, 1, 0, 5),
     M.Op<int>.RemoveClient(1), M.Op<int>.RunNext(5), M.Op<int>.QueueFrame(3, 0, 2, 5), M.Op<int>.RunNext(10)]
  }

  lemma Stepwise(t: M.Trace<int>, op: M.Op<int>, rest: seq<M.Op<int>>)
    requires M.Legal(t.m, op) && M.LegalRun(M.TraceStep(t, op), rest)
    ensures M.LegalRun(t, [op] + rest) && M.Execute(t, [op] + rest) == M.Execute(M.TraceStep(t, op), rest)
  {
    assert ([op] + rest)[1..] == rest;
    hide M.Legal, M.TraceStep;
  }

  /**
   * The program waits for a best-effort frame due at 10. A frame of another client is queued, due at 5,
   * and that client leaves. A calendar that grants the last request lets the first frame be delivered
   * at 5. The next best-effort frame then begins its air time at 5, while the delivered one's ends at 10.
   */
  lemma EarlyDeliveryOverlaps()
    ensures var a, b := M.MJob<int>.Delivery(1), M.MJob<int>.Delivery(2);
      var c, edits := TimeTravel.WaitingForTen(a), [TimeTravel.Op<M.MJob<int>>.Add(b, 5, 0, 0), TimeTravel.Del(b)];
      TimeTravel.LegalRun(c, edits) && TimeTravel.Continued(TimeTravel.Execute(c, edits), a).ran == [Ran(A.Job(), 5, 2)]
    ensures M.LegalRun(M.StartTrace<int>(0, 2), Ops()) && M.Execute(M.StartTrace<int>(0, 2), Ops()).delivered == [A, C]
    ensures A.serial < C.serial && A.Ac() <= C.Ac() && A.start > C.start - C.duration
  {
    TimeTravel.EarlyWake(M.MJob<int>.Delivery(1), M.MJob<int>.Delivery(2));
    Connect();
    QueueBoth();
    LeaveSecond();
    RunEarly();
    QueueAndRunLast();
    hide M.Legal, M.TraceStep, TimeTravel.WaitingForTen, TimeTravel.Continued, TimeTravel.Execute, TimeTravel.LegalRun;
    Chain();
  }

  lemma Chain()
    ensures M.LegalRun(M.StartTrace<int>(0, 2), Ops()) && M.Execute(M.StartTrace<int>(0, 2), Ops()) == Overlapped()
  {
    Connect();
    QueueBoth();
    LeaveSecond();
    RunEarly();
    QueueAndRunLast();
    hide M.Legal, M.TraceStep, Before, Both, One, Early, Overlapped;
    var s := M.StartTrace<int>(0, 2);
    var o := Ops();
    var t1 := M.TraceStep(s, o[0]);
    var t3 := M.TraceStep(Before(), o[2]);
    var t7 := M.TraceStep(Early(), o[6]);
    assert M.LegalRun(Overlapped(), []) && M.Execute(Overlapped(), []) == Overlapped();
    Stepwise(t7, o[7], []);
    assert [o[7]] + [] == o[7..];
    Stepwise(Early(), o[6], o[7..]);
    assert [o[6]] + o[7..] == o[6..];
    Stepwise(One(), o[5], o[6..]);
    assert [o[5]] + o[6..] == o[5..];
    Stepwise(Both(), o[4], o[5..]);
    assert [o[4]] + o[5..] == o[4..];
    Stepwise(t3, o[3], o[4..]);
    assert [o[3]] + o[4..] == o[3..];
    Stepwise(Before(), o[2], o[3..]);
    assert [o[2]] + o[3..] == o[2..];
    Stepwise(t1, o[1], o[2..]);
    assert [o[1]] + o[2..] == o[1..];
    Stepwise(s, o[0], o[1..]);
    assert [o[0]] + o[1..] == o;
  }
}
