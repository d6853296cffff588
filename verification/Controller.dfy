/** The client side of the um_timetravel protocol: sequence numbers, acknowledgements and the messages handled while waiting for them. */
module Controller {
  import opened Common
  import opened SchedState
  import opened Ticks
  import TimeTravel

  datatype Kind = Ack | Run | FreeUntil | Start | Request | Wait | Get | Update

  datatype Msg = Msg(kind: Kind, time: int, num: nat)

  // ---------- sequence numbers ----------

  const SEQS := 0x1_0000_0000

  /** The 32-bit counter's next value that is not 0. */
  function NextSeq(num: nat): (n: nat)
    requires num < SEQS
    ensures 0 < n < SEQS
  {
    if (num + 1) % SEQS == 0 then 1 else (num + 1) % SEQS
  }

  function LaterSeq(num: nat, k: nat): (n: nat)
    requires num < SEQS
    ensures n < SEQS
  {
    if k == 0 then num else NextSeq(LaterSeq(num, k - 1))
  }

  lemma {:induction false} LaterSeqIs(num: nat, k: nat)
    requires 0 < num < SEQS
    ensures LaterSeq(num, k) == (num - 1 + k) % (SEQS - 1) + 1
  {
    if k > 0 {
      LaterSeqIs(num, k - 1);
      assert LaterSeq(num, k) == NextSeq(LaterSeq(num, k - 1));
      hide LaterSeq;
      RoundTheCircle(num - 1 + (k - 1));
    }
  }

  lemma RoundTheCircle(m: nat)
    ensures (m + 1) % (SEQS - 1) == if m % (SEQS - 1) == SEQS - 2 then 0 else m % (SEQS - 1) + 1
  {
  }

  /** No acknowledgement can be taken for that of another message sent fewer than 2^32 - 1 messages away. */
  lemma SeqsDiffer(num: nat, j: nat, k: nat)
    requires num < SEQS && 0 < j < k < j + SEQS - 1
    ensures LaterSeq(num, j) != LaterSeq(num, k) && LaterSeq(num, j) != 0
  {
    var first := LaterSeq(num, j);
    LaterSeqSplit(num, j, k - j);
    LaterSeqIs(first, k - j);
    hide LaterSeq;
    Around(first - 1, k - j);
  }

  lemma Around(x: nat, d: nat)
    requires x < SEQS - 1 && 0 < d < SEQS - 1
    ensures (x + d) % (SEQS - 1) != x
  {
  }

  lemma {:induction false} LaterSeqSplit(num: nat, j: nat, k: nat)
    requires num < SEQS
    ensures LaterSeq(num, j + k) == LaterSeq(LaterSeq(num, j), k)
  {
    if k > 0 { LaterSeqSplit(num, j, k - 1); }
  }

  // ---------- what received messages amount to ----------

  predicate Matches(m: Msg, num: nat) {
    m.kind.Ack? && m.num == num
  }

  /** Run and FreeUntil are acknowledged, with their own numbers. */
  function Reply(m: Msg): seq<Msg> {
    if m.kind.Ack? then [] else [Msg(Ack, 0, m.num)]
  }

  /** One message, as a step of the time-travel machine. */
  function HandleOne<T(==)>(c: TimeTravel.Ctrl<T>, m: Msg): (d: TimeTravel.Ctrl<T>)
    requires c.tick > 0
    ensures d.tick == c.tick && d.offset == c.offset
  {
    if m.kind.Run? then TimeTravel.Step(c, TimeTravel.RunMsg(m.time))
    else if m.kind.FreeUntil? then TimeTravel.Step(c, TimeTravel.FreeUntil(m.time))
    else c
  }

  /** The message is one a client may receive, and no assertion fails on it. */
  ghost predicate Fits<T>(c: TimeTravel.Ctrl<T>, m: Msg)
    requires c.tick > 0
  {
    match m.kind
    case Ack => true
    case Run => TimeTravel.Legal(c, TimeTravel.RunMsg(m.time))
    case FreeUntil => TimeTravel.Legal(c, TimeTravel.FreeUntil(m.time))
    case _ => false
  }

  function Replies(ms: seq<Msg>): seq<Msg> {
    if ms == [] then [] else Reply(ms[0]) + Replies(ms[1..])
  }

  /** The state after messages that end no wait. */
  function Received<T(==)>(c: TimeTravel.Ctrl<T>, ms: seq<Msg>): (d: TimeTravel.Ctrl<T>)
    requires c.tick > 0
    ensures d.tick == c.tick && d.offset == c.offset
    decreases |ms|
  {
    if ms == [] then c else Received(HandleOne(c, ms[0]), ms[1..])
  }

  ghost predicate Acceptable<T>(c: TimeTravel.Ctrl<T>, ms: seq<Msg>)
    requires c.tick > 0
    decreases |ms|
  {
    ms == [] || (Fits(c, ms[0]) && Acceptable(HandleOne(c, ms[0]), ms[1..]))
  }

  ghost predicate OnlyJobs<T>(ops: seq<TimeTravel.Op<T>>) {
    forall i :: 0 <= i < |ops| ==> ops[i].Add? || ops[i].Del?
  }

  /** The first message of a kind looked for ends a wait; those before it are handled on the way. */
  function AckAt(ms: seq<Msg>, num: nat): (k: nat)
    ensures k <= |ms| && (k < |ms| ==> Matches(ms[k], num)) && forall i :: 0 <= i < k ==> !Matches(ms[i], num)
  {
    if ms == [] || Matches(ms[0], num) then 0 else 1 + AckAt(ms[1..], num)
  }

  function RunAt(ms: seq<Msg>): (k: nat)
    ensures k <= |ms| && (k < |ms| ==> ms[k].kind.Run?) && forall i :: 0 <= i < k ==> !ms[i].kind.Run?
  {
    if ms == [] || ms[0].kind.Run? then 0 else 1 + RunAt(ms[1..])
  }

  /**
   * Up to the first k messages of rest are still to come: handling them makes the state, the replies
   * and the waiting flag what they should end as, and leaves the messages that should be left.
   */
  ghost predicate Awaiting<T(!new)>(end: End<T>, c: TimeTravel.Ctrl<T>, out: seq<Msg>, waiting: bool, rest: seq<Msg>, k: nat) {
    && c.tick > 0 && k <= |rest| && Acceptable(c, rest[..k])
    && end == End(Received(c, rest[..k]), out + Replies(rest[..k]), waiting && RunAt(rest[..k]) == k, rest[k..])
  }

  datatype End<T> = End(c: TimeTravel.Ctrl<T>, out: seq<Msg>, waiting: bool, rest: seq<Msg>)

  lemma AwaitStep<T(!new)>(end: End<T>, c: TimeTravel.Ctrl<T>, out: seq<Msg>, waiting: bool, rest: seq<Msg>, k: nat)
    requires Awaiting(end, c, out, waiting, rest, k) && k > 0
    ensures Fits(c, rest[0])
    ensures Awaiting(end, HandleOne(c, rest[0]), out + Reply(rest[0]), waiting && !rest[0].kind.Run?, rest[1..], k - 1)
  {
    var ms := rest[..k];
    assert ms[0] == rest[0];
    assert Received(c, ms) == Received(HandleOne(c, ms[0]), ms[1..]);
    assert Replies(ms) == Reply(ms[0]) + Replies(ms[1..]);
    assert RunAt(ms) == if ms[0].kind.Run? then 0 else 1 + RunAt(ms[1..]);
    hide Received, Replies, RunAt, Reply, HandleOne, Fits;
    assert ms[1..] == rest[1..][..k - 1];
    assert rest[k..] == rest[1..][k - 1..];
    assert out + (Reply(ms[0]) + Replies(ms[1..])) == (out + Reply(ms[0])) + Replies(ms[1..]);
  }

  /** The acknowledgement of a message comes first. */
  lemma NothingReceived<T>(c: TimeTravel.Ctrl<T>, ms: seq<Msg>, num: nat)
    requires c.tick > 0 && ms != [] && Matches(ms[0], num)
    ensures AckAt(ms, num) == 0 && ms[..0] == []
    ensures Acceptable(c, []) && Received(c, []) == c && Replies([]) == [] && RunAt([]) == 0
  {
  }

  lemma AwaitEnds<T(!new)>(end: End<T>, c: TimeTravel.Ctrl<T>, out: seq<Msg>, waiting: bool, rest: seq<Msg>)
    requires Awaiting(end, c, out, waiting, rest, 0)
    ensures end == End(c, out, waiting, rest)
  {
    assert rest[..0] == [] && out + [] == out;
  }

  lemma AckChangesNothing<T>(c: TimeTravel.Ctrl<T>, m: Msg)
    requires c.tick > 0 && m.kind.Ack?
    ensures Fits(c, m) && HandleOne(c, m) == c && Reply(m) == []
  {
  }

  lemma {:induction false} RunInFront(ms: seq<Msg>)
    requires RunAt(ms) < |ms|
    ensures RunAt(ms[..RunAt(ms) + 1]) == RunAt(ms)
  {
    if !ms[0].kind.Run? {
      RunInFront(ms[1..]);
      assert ms[..RunAt(ms) + 1][1..] == ms[1..][..RunAt(ms[1..]) + 1];
    }
  }

  /** What a message does to the client, in terms of the time it carries. */
  ghost predicate MessageDoes<T>(c: TimeTravel.Ctrl<T>, m: Msg, d: TimeTravel.Ctrl<T>) {
    match m.kind
    case Run => TimeTravel.RunDoes(c, m.time, d)
    case FreeUntil => TimeTravel.FreeUntilDoes(c, m.time, d)
    case _ => d == c
  }

  lemma HandleOneDoes<T>(c: TimeTravel.Ctrl<T>, m: Msg)
    requires c.tick > 0 && Fits(c, m)
    ensures MessageDoes(c, m, HandleOne(c, m))
  {
    if m.kind.Run? {
      TimeTravel.MessagesDo(c, TimeTravel.RunMsg(m.time));
    } else if m.kind.FreeUntil? {
      TimeTravel.MessagesDo(c, TimeTravel.FreeUntil(m.time));
    }
    hide TimeTravel.Step, TimeTravel.Legal, TimeTravel.RunDoes, TimeTravel.FreeUntilDoes;
  }

  /** The last of several messages acts on what those before it have made of the client. */
  lemma {:induction false} LastReceived<T>(c: TimeTravel.Ctrl<T>, ms: seq<Msg>)
    requires c.tick > 0 && Acceptable(c, ms) && ms != []
    ensures MessageDoes(Received(c, ms[..|ms| - 1]), ms[|ms| - 1], Received(c, ms))
    decreases |ms|
  {
    hide HandleOne, Fits, MessageDoes;
    if |ms| == 1 {
      HandleOneDoes(c, ms[0]);
      assert ms[..0] == [] && ms[1..] == [];
      assert Received(HandleOne(c, ms[0]), []) == HandleOne(c, ms[0]);
    } else {
      LastReceived(HandleOne(c, ms[0]), ms[1..]);
      assert ms[1..][..|ms| - 2] == ms[..|ms| - 1][1..] && ms[1..][|ms| - 2] == ms[|ms| - 1];
    }
  }

  lemma WaitEndsByRun<T>(c: TimeTravel.Ctrl<T>, ms: seq<Msg>)
    requires var r := RunAt(ms); c.tick > 0 && r < |ms| && Acceptable(c, ms[..r + 1])
    ensures var r := RunAt(ms); TimeTravel.RunDoes(Received(c, ms[..r]), ms[r].time, Received(c, ms[..r + 1]))
  {
    var r := RunAt(ms);
    hide RunAt, Received, Acceptable, TimeTravel.RunDoes, TimeTravel.FreeUntilDoes;
    LastReceived(c, ms[..r + 1]);
    assert ms[..r + 1][..r] == ms[..r];
  }

  class Controller<T(!new, ==)> {
    /** The scheduler, with the point of its loop it has reached; offset and nsec_per_tick are in it. */
    var world: TimeTravel.Ctrl<T>
    var started: bool
    var waiting: bool
    var acked: bool
    var ackTime: int
    var expected: nat
    var seqNo: nat
    /** What the calendar has sent and is still to be read, and what has been sent to it. */
    var inbox: seq<Msg>
    var outbox: seq<Msg>

    ghost predicate Valid()
      reads this
    {
      world.tick > 0 && seqNo < SEQS && expected < SEQS
    }

    /** The first half of usfstl_sched_ctrl_start: the hooks are set on a standalone scheduler without jobs. */
    constructor (st: State<T>, tick: int, inbox: seq<Msg>)
      requires tick > 0 && st.jobs == [] && !st.sync.external
      ensures Valid() && world == TimeTravel.StartCtrl(st, tick) && this.inbox == inbox && outbox == []
      ensures !started && !waiting && !acked && expected == 0 && seqNo == 0
    {
      world, this.inbox, outbox := TimeTravel.StartCtrl(st, tick), inbox, [];
      started, waiting, acked, ackTime, expected, seqNo := false, false, false, 0, 0, 0;
    }

    /**
     * One message is read, handled and, unless it is an acknowledgement, acknowledged. RUN ends the wait
     * at the least tick not before its time; FREE_UNTIL sets the bound to the greatest tick not after it.
     */
    method SockRead()
      requires Valid() && inbox != [] && Fits(world, inbox[0])
      modifies this`world, this`waiting, this`acked, this`ackTime, this`inbox, this`outbox
      ensures Valid() && inbox == old(inbox)[1..]
      ensures world == HandleOne(old(world), old(inbox)[0]) && outbox == old(outbox) + Reply(old(inbox)[0])
      ensures MessageDoes(old(world), old(inbox)[0], world)
      ensures outbox == old(outbox) + if old(inbox)[0].kind.Ack? then [] else [Msg(Ack, 0, old(inbox)[0].num)]
      ensures waiting == (old(waiting) && !old(inbox)[0].kind.Run?)
      ensures if Matches(old(inbox)[0], expected) then acked && ackTime == old(inbox)[0].time
              else acked == old(acked) && ackTime == old(ackTime)
    {
      var msg := inbox[0];
      HandleOneDoes(world, msg);
      inbox := inbox[1..];
      hide TimeTravel.Step, TimeTravel.Legal, MessageDoes;
      match msg.kind {
        case Ack =>
          if msg.num == expected {
            acked := true;
            ackTime := msg.time;
          }
          return;
        case Run =>
          world := TimeTravel.Step(world, TimeTravel.RunMsg(msg.time));
          waiting := false;
        case FreeUntil =>
          world := TimeTravel.Step(world, TimeTravel.FreeUntil(msg.time));
        case _ =>
          assert false;
      }
      outbox := outbox + [Msg(Ack, 0, msg.num)];
    }

    /**
     * What is received before the acknowledgement is handled and acknowledged in order, the
     * acknowledgement of exactly this message ends the wait, and nothing after it is read. A reply
     * to GET then sets the local time.
     */
    method SendMsg(kind: Kind, time: int)
      requires Valid() && !acked
      requires var k := AckAt(inbox, NextSeq(seqNo));
        && k < |inbox| && Acceptable(world, inbox[..k]) && (kind.Wait? ==> k == 0)
        && (kind.Get? ==> TimeTravel.Legal(Received(world, inbox[..k]), TimeTravel.GetReply(inbox[k].time)))
      modifies this`world, this`waiting, this`acked, this`ackTime, this`inbox, this`outbox, this`expected, this`seqNo
      ensures Valid() && !acked && expected == old(expected) && seqNo == NextSeq(old(seqNo))
      ensures var k, ms := AckAt(old(inbox), seqNo), old(inbox);
        && inbox == ms[k + 1..]
        && outbox == old(outbox) + [Msg(kind, time, seqNo)] + Replies(ms[..k])
        && waiting == (old(waiting) && RunAt(ms[..k]) == k)
        && var w := Received(old(world), ms[..k]);
        if kind.Get? then TimeTravel.GetReplyDoes(w, ms[k].time, world) else world == w
    {
      hide Received, Acceptable, Replies, RunAt, AckAt, TimeTravel.Legal, TimeTravel.GetReplyDoes;
      Exchange(kind, time);
      if kind == Get {
        TimeTravel.MessagesDo(world, TimeTravel.GetReply(ackTime));
        world := TimeTravel.Step(world, TimeTravel.GetReply(ackTime));
      }
    }

    /** Sending and waiting for the acknowledgement. */
    method Exchange(kind: Kind, time: int)
      requires Valid() && !acked
      requires var k := AckAt(inbox, NextSeq(seqNo));
        k < |inbox| && Acceptable(world, inbox[..k]) && (kind.Wait? ==> k == 0)
      modifies this`world, this`waiting, this`acked, this`ackTime, this`inbox, this`outbox, this`expected, this`seqNo
      ensures Valid() && !acked && expected == old(expected) && seqNo == NextSeq(old(seqNo))
      ensures var k, ms := AckAt(old(inbox), seqNo), old(inbox);
        && inbox == ms[k + 1..] && ackTime == ms[k].time
        && outbox == old(outbox) + [Msg(kind, time, seqNo)] + Replies(ms[..k])
        && waiting == (old(waiting) && RunAt(ms[..k]) == k)
        && world == Received(old(world), ms[..k])
    {
      ghost var ms, k := inbox, AckAt(inbox, NextSeq(seqNo));
      hide Received, Acceptable, Replies, RunAt, AckAt;
      TakeNumber();
      outbox := outbox + [Msg(kind, time, seqNo)];
      var oldExpected := expected;
      expected := seqNo;
      ghost var end := End(Received(world, ms[..k]), outbox + Replies(ms[..k]), waiting && RunAt(ms[..k]) == k, ms[k..]);
      assert Awaiting(end, world, outbox, waiting, inbox, k);
      hide Awaiting;
      if kind == Wait {
        ReadAck(end);
      }
      if !acked {
        AwaitAck(end, k);
      }
      assert ms[k..][1..] == ms[k + 1..];
      acked := false;
      expected := oldExpected;
    }

    /** The next sequence number; 0 is left out. */
    method TakeNumber()
      requires Valid()
      modifies this`seqNo
      ensures Valid() && seqNo == NextSeq(old(seqNo))
    {
      seqNo := (seqNo + 1) % SEQS;
      if seqNo == 0 {
        seqNo := (seqNo + 1) % SEQS;
      }
    }

    /** The expected acknowledgement is next, and is read. */
    method ReadAck(ghost end: End<T>)
      requires Valid() && inbox != [] && Matches(inbox[0], expected) && Awaiting(end, world, outbox, waiting, inbox, 0)
      modifies this`world, this`waiting, this`acked, this`ackTime, this`inbox, this`outbox
      ensures Valid() && acked && end.rest != [] && inbox == end.rest[1..] && ackTime == end.rest[0].time
      ensures world == end.c && outbox == end.out && waiting == end.waiting
    {
      AwaitEnds(end, world, outbox, waiting, inbox);
      hide Awaiting, TimeTravel.Step, TimeTravel.Legal;
      SockRead();
    }

    /** The loop that handles messages until the acknowledgement has been read. */
    method AwaitAck(ghost end: End<T>, ghost k: nat)
      requires Valid() && !acked && k == AckAt(inbox, expected) < |inbox| && Awaiting(end, world, outbox, waiting, inbox, k)
      modifies this`world, this`waiting, this`acked, this`ackTime, this`inbox, this`outbox
      ensures Valid() && acked && end.rest != [] && inbox == end.rest[1..] && ackTime == end.rest[0].time
      ensures world == end.c && outbox == end.out && waiting == end.waiting
    {
      ghost var left: nat := k;
      hide Awaiting, HandleOne, Reply, Fits;
      while !acked
        invariant Valid()
        invariant if acked then
                    && end.rest != [] && inbox == end.rest[1..] && ackTime == end.rest[0].time
                    && world == end.c && outbox == end.out && waiting == end.waiting
                  else left == AckAt(inbox, expected) < |inbox| && Awaiting(end, world, outbox, waiting, inbox, left)
        decreases |inbox|, !acked
      {
        if left > 0 {
          AwaitStep(end, world, outbox, waiting, inbox, left);
          left := left - 1;
        } else {
          AwaitEnds(end, world, outbox, waiting, inbox);
          AckChangesNothing(world, inbox[0]);
        }
        SockRead();
      }
    }

    /** usfstl_sched_ctrl_wait: everything up to the next RUN is handled, and nothing after it. */
    method ExternalWait()
      requires Valid() && !acked && inbox != [] && Matches(inbox[0], NextSeq(seqNo))
      requires var ms := inbox[1..]; var r := RunAt(ms);
        && r < |ms| && Acceptable(world, ms[..r + 1]) && forall i :: 0 <= i <= r ==> !Matches(ms[i], expected)
      modifies this`world, this`waiting, this`acked, this`ackTime, this`inbox, this`outbox, this`expected, this`seqNo
      ensures Valid() && !acked && !waiting && expected == old(expected) && seqNo == NextSeq(old(seqNo))
      ensures var ms := old(inbox)[1..]; var r := RunAt(ms);
        && inbox == ms[r + 1..] && world == Received(old(world), ms[..r + 1])
        && outbox == old(outbox) + [Msg(Wait, -1, seqNo)] + Replies(ms[..r + 1])
        && TimeTravel.RunDoes(Received(old(world), ms[..r]), ms[r].time, world)
    {
      ghost var ms := inbox[1..];
      ghost var r: nat := RunAt(ms) + 1;
      WaitEndsByRun(world, ms);
      waiting := true;
      NothingReceived(world, inbox, NextSeq(seqNo));
      hide Received, Acceptable, Replies, AckAt, HandleOne, TimeTravel.Step, TimeTravel.Legal, TimeTravel.RunDoes;
      SendMsg(Wait, -1);
      RunInFront(ms);
      ghost var end := End(Received(world, ms[..r]), outbox + Replies(ms[..r]), false, ms[r..]);
      hide RunAt;
      AwaitRun(end, r);
    }

    /** The loop that handles messages until a RUN has been read. */
    method AwaitRun(ghost end: End<T>, ghost k: nat)
      requires Valid() && !acked && waiting && k == RunAt(inbox) + 1 <= |inbox| && Awaiting(end, world, outbox, true, inbox, k)
      requires forall i :: 0 <= i < k ==> !Matches(inbox[i], expected)
      modifies this`world, this`waiting, this`acked, this`ackTime, this`inbox, this`outbox
      ensures Valid() && !acked && !waiting && world == end.c && outbox == end.out && inbox == end.rest
    {
      ghost var left: nat := k;
      hide Awaiting, HandleOne, Reply, Fits;
      while waiting
        invariant Valid() && !acked && left <= |inbox|
        invariant Awaiting(end, world, outbox, waiting, inbox, left)
        invariant if waiting then left == RunAt(inbox) + 1 else left == 0
        invariant forall i :: 0 <= i < left ==> !Matches(inbox[i], expected)
        decreases left
      {
        AwaitStep(end, world, outbox, waiting, inbox, left);
        left := left - 1;
        SockRead();
      }
      AwaitEnds(end, world, outbox, waiting, inbox);
    }

    /**
     * The second half of usfstl_sched_ctrl_start. While START is being acknowledged, other handlers
     * may add and delete jobs. If one is listed then, its start is requested; the offset is left out.
     */
    method Start(clientId: int, others: seq<TimeTravel.Op<T>>)
      requires Valid() && !acked && !started && !waiting
      requires var k := AckAt(inbox, NextSeq(seqNo));
        && k < |inbox| && Acceptable(world, inbox[..k])
        && OnlyJobs(others) && TimeTravel.LegalRun(Received(world, inbox[..k]), others)
        && (var c, rest := TimeTravel.Execute(Received(world, inbox[..k]), others), inbox[k + 1..];
            c.st.jobs != [] ==> var j := AckAt(rest, NextSeq(NextSeq(seqNo))); j < |rest| && Acceptable(c, rest[..j]))
      modifies this
      ensures Valid() && started && !acked && !waiting && expected == old(expected)
      ensures var first, ms := NextSeq(old(seqNo)), old(inbox);
        var k := AckAt(ms, first);
        var c, rest := TimeTravel.Execute(Received(old(world), ms[..k]), others), ms[k + 1..];
        var sent := old(outbox) + [Msg(Kind.Start, clientId, first)] + Replies(ms[..k]);
        if c.st.jobs == [] then
          world == c && inbox == rest && outbox == sent && seqNo == first
        else
          var j, time := AckAt(rest, NextSeq(first)), Outer(c.tick, c.offset, c.st.jobs[0].start) - c.offset;
          && world == Received(c, rest[..j]) && inbox == rest[j + 1..] && seqNo == NextSeq(first)
          && outbox == sent + [Msg(Request, time, seqNo)] + Replies(rest[..j])
    {
      hide Received, Acceptable, Replies, RunAt, AckAt, TimeTravel.Legal, TimeTravel.LegalRun, TimeTravel.Execute, TimeTravel.Step;
      SendMsg(Kind.Start, clientId);
      started := true;
      world := TimeTravel.Execute(world, others);
      if world.st.jobs != [] {
        SendMsg(Request, world.st.jobs[0].start * world.tick);
      }
    }

    /** usfstl_sched_ctrl_sync_to: the calendar is told of local time, in its own nanoseconds. */
    method SyncTo()
      requires Valid() && !acked && started
      requires var k := AckAt(inbox, NextSeq(seqNo)); k < |inbox| && Acceptable(world, inbox[..k])
      modifies this`world, this`waiting, this`acked, this`ackTime, this`inbox, this`outbox, this`expected, this`seqNo
      ensures Valid() && !acked && expected == old(expected) && seqNo == NextSeq(old(seqNo))
      ensures var k, ms := AckAt(old(inbox), seqNo), old(inbox);
        && inbox == ms[k + 1..] && world == Received(old(world), ms[..k])
        && waiting == (old(waiting) && RunAt(ms[..k]) == k)
        && outbox == old(outbox) + [Msg(Update, TimeTravel.LocalTime(old(world)), seqNo)] + Replies(ms[..k])
    {
      hide Received, Acceptable, Replies, RunAt, AckAt, TimeTravel.Legal;
      var time := world.st.now * world.tick;
      time := time + world.offset;
      SendMsg(Update, time);
    }

    /** usfstl_sched_ctrl_request: nothing before the calendar is told of a start, then the time in nanoseconds. */
    method RequestTime(time: int)
      requires Valid() && !acked
      requires started ==> var k := AckAt(inbox, NextSeq(seqNo)); k < |inbox| && Acceptable(world, inbox[..k])
      modifies this`world, this`waiting, this`acked, this`ackTime, this`inbox, this`outbox, this`expected, this`seqNo
      ensures Valid() && !acked && expected == old(expected)
      ensures !started ==> outbox == old(outbox) && world == old(world) && inbox == old(inbox) && seqNo == old(seqNo)
      ensures started ==>
        var k, ms := AckAt(old(inbox), seqNo), old(inbox);
        && k < |ms| && inbox == ms[k + 1..] && world == Received(old(world), ms[..k])
        && outbox == old(outbox) + [Msg(Request, Outer(old(world).tick, old(world).offset, time), seqNo)] + Replies(ms[..k])
    {
      if !started {
        return;
      }
      SendMsg(Request, time * world.tick + world.offset);
    }

    /** usfstl_sched_ctrl_sync_from: local time becomes the calendar's, rounded up to a tick. */
    method SyncFrom()
      requires Valid() && !acked
      requires started ==> var k := AckAt(inbox, NextSeq(seqNo));
        && k < |inbox| && Acceptable(world, inbox[..k])
        && TimeTravel.Legal(Received(world, inbox[..k]), TimeTravel.GetReply(inbox[k].time))
      modifies this`world, this`waiting, this`acked, this`ackTime, this`inbox, this`outbox, this`expected, this`seqNo
      ensures Valid() && !acked && expected == old(expected)
      ensures !started ==> outbox == old(outbox) && world == old(world) && inbox == old(inbox)
      ensures started ==>
        var k, ms := AckAt(old(inbox), seqNo), old(inbox);
        && k < |ms| && inbox == ms[k + 1..] && outbox == old(outbox) + [Msg(Get, -1, seqNo)] + Replies(ms[..k])
        && var w := Received(old(world), ms[..k]);
        && world == w.(st := w.st.(now := world.st.now), granted := ms[k].time)
        && ms[k].time <= TimeTravel.LocalTime(world) < ms[k].time + w.tick && TimeTravel.TimeAccepted(w.st, world.st.now)
    {
      if !started {
        return;
      }
      SendMsg(Get, -1);
    }
  }

  /** Whatever messages it handles, the client stays within what the calendar has allowed. */
  lemma {:induction false} ReceivedIsSafe<T>(c: TimeTravel.Ctrl<T>, ms: seq<Msg>)
    requires c.tick > 0 && TimeTravel.Safe(c) && c.st.sync.external && Acceptable(c, ms)
    ensures TimeTravel.Safe(Received(c, ms)) && Received(c, ms).st.sync.external
    decreases |ms|
  {
    if ms != [] {
      var m := ms[0];
      if m.kind.Run? {
        TimeTravel.StepSafe(c, TimeTravel.RunMsg(m.time));
      } else if m.kind.FreeUntil? {
        TimeTravel.StepSafe(c, TimeTravel.FreeUntil(m.time));
      }
      hide TimeTravel.Safe, TimeTravel.Step, TimeTravel.Legal;
      ReceivedIsSafe(HandleOne(c, m), ms[1..]);
    }
  }
}
