/** A scheduler driven by a simulation calendar over the um_timetravel protocol, as schedctrl.c does it. */
module TimeTravel {
  import opened Clock
  import opened Common
  import opened SchedState
  import opened SchedRuns
  import opened Ticks

  /** Where usfstl_sched_next stands: at the top of its loop, waiting, or just past a wait for a job. */
  datatype Phase<+T> = Top | Waiting(job: Option<T>) | Resumed(next: T)

  /**
   * `tick` is nsec_per_tick. `granted` is the last time received in a RUN message or a GET reply
   * and `frees` are the bounds received in FREE_UNTIL messages.
   */
  datatype Ctrl<+T> = Ctrl(st: State<T>, phase: Phase<T>, tick: int, offset: int,
                           granted: int, frees: seq<int>, ran: seq<Ran<T>>)

  datatype Op<+T> =
    | Add(job: T, start: int, priority: int, group: int)
    | Del(job: T)
    | Go
    | Resume
    | RunMsg(time: int)
    | FreeUntil(time: int)
    | GetReply(time: int)

  function RunHead<T>(c: Ctrl<T>): Ctrl<T>
    requires c.st.jobs != []
  {
    c.(st := c.st.(jobs := c.st.jobs[1..]), phase := Top, ran := c.ran + [Ran(c.st.jobs[0], c.st.now, c.st.adds)])
  }

  /** usfstl_sched_external_wait up to the wait itself */
  function BeginWait<T>(c: Ctrl<T>, job: Option<T>): Ctrl<T> {
    c.(st := c.st.(sync := c.st.sync.(prevSet := false, waiting := true)), phase := Waiting(job))
  }

  /** usfstl_sched_next from the top of its loop: wait, free-run to the first job and run it, or run it now. */
  function GoOn<T>(c: Ctrl<T>): Ctrl<T> {
    if c.st.jobs == [] then BeginWait(c, None)
    else if c.st.jobs[0].start <= c.st.now then RunHead(c)
    else
      var r := Request(Unbounded, c.st.sync, c.st.jobs[0].start);
      var d := c.(st := c.st.(sync := r.1));
      if r.0 then BeginWait(d, Some(d.st.jobs[0].job))
      else RunHead(d.(st := d.st.(now := d.st.jobs[0].start)))
  }

  function Step<T(==)>(c: Ctrl<T>, op: Op<T>): Ctrl<T>
    requires c.tick > 0
  {
    match op
    case Add(job, start, priority, group) => c.(st := SchedState.Add(Unbounded, c.st, job, start, priority, group))
    case Del(job) => c.(st := SchedState.Del(c.st, job))
    case Go => GoOn(c)
    case Resume =>
      if c.phase.Resumed? && c.st.jobs != [] && c.st.jobs[0].job == c.phase.next then RunHead(c) else c.(phase := Top)
    case RunMsg(time) =>
      c.(st := c.st.(now := TickUp(c.tick, c.offset, time), sync := c.st.sync.(waiting := false)), granted := time,
         phase := if c.phase.Waiting? && c.phase.job.Some? then Resumed(c.phase.job.value) else Top)
    case FreeUntil(time) =>
      c.(st := c.st.(sync := c.st.sync.(nextSet := true, next := TickDown(c.tick, c.offset, time))), frees := c.frees + [time])
    case GetReply(time) => c.(st := c.st.(now := TickUp(c.tick, c.offset, time)), granted := time)
  }

  /** usfstl_sched_set_time's assertions */
  ghost predicate TimeAccepted<T>(st: State<T>, time: int) {
    st.now <= time && (st.jobs == [] || time <= st.sync.prev)
  }

  ghost predicate Legal<T>(c: Ctrl<T>, op: Op<T>)
    requires c.tick > 0
  {
    match op
    case Add(job, start, _, _) => !c.phase.Resumed? && c.st.now <= start && !Listed(c.st.jobs, job)
    case Del(_) => !c.phase.Resumed?
    case Go => c.phase.Top?
    case Resume => c.phase.Resumed?
    case RunMsg(time) => c.phase.Waiting? && TimeAccepted(c.st, TickUp(c.tick, c.offset, time))
    case FreeUntil(time) => !c.phase.Resumed? && c.st.now <= TickDown(c.tick, c.offset, time)
    case GetReply(time) => !c.phase.Resumed? && TimeAccepted(c.st, TickUp(c.tick, c.offset, time))
  }

  function Execute<T(==)>(c: Ctrl<T>, ops: seq<Op<T>>): (r: Ctrl<T>)
    requires c.tick > 0
    ensures r.tick == c.tick && r.offset == c.offset
    decreases |ops|
  {
    if ops == [] then c else Execute(Step(c, ops[0]), ops[1..])
  }

  ghost predicate LegalRun<T>(c: Ctrl<T>, ops: seq<Op<T>>)
    requires c.tick > 0
    decreases |ops|
  {
    ops == [] || (Legal(c, ops[0]) && LegalRun(Step(c, ops[0]), ops[1..]))
  }

  /** usfstl_sched_ctrl_start on a standalone scheduler: the calendar's time 0 is wherever the local clock stands. */
  function StartCtrl<T>(st: State<T>, tick: int): Ctrl<T> {
    Ctrl(st.(sync := Sync(true, false, false, 0, false, 0, [])), Top, tick, -st.now * tick, 0, [], [])
  }

  // ---------- local time against what the calendar has allowed ----------

  /** Local time in nanoseconds. */
  function LocalTime<T>(c: Ctrl<T>): int {
    Outer(c.tick, c.offset, c.st.now)
  }

  ghost predicate WithinFree<T>(c: Ctrl<T>, time: int) {
    exists i :: 0 <= i < |c.frees| && time <= c.frees[i]
  }

  ghost predicate Safe<T>(c: Ctrl<T>) {
    && c.tick > 0
    && (LocalTime(c) < c.granted + c.tick || WithinFree(c, LocalTime(c) + c.tick))
    && (c.st.sync.nextSet ==> WithinFree(c, Outer(c.tick, c.offset, c.st.sync.next)))
  }

  lemma RequestKeepsBound(y: Sync, time: int)
    ensures var r := Request(Unbounded, y, time); r.1.nextSet == y.nextSet && r.1.next == y.next
    ensures !Request(Unbounded, y, time).0 ==> !y.external || (y.nextSet && time < y.next)
  {
  }

  lemma GoSafe<T>(c: Ctrl<T>)
    requires Safe(c) && c.st.sync.external
    ensures Safe(GoOn(c))
  {
    if c.st.jobs != [] && c.st.jobs[0].start > c.st.now {
      var start := c.st.jobs[0].start;
      RequestKeepsBound(c.st.sync, start);
      var d := GoOn(c);
      if !Request(Unbounded, c.st.sync, start).0 {
        OuterOrder(c.tick, c.offset, start, c.st.sync.next);
        var i :| 0 <= i < |c.frees| && Outer(c.tick, c.offset, c.st.sync.next) <= c.frees[i];
        assert LocalTime(d) + d.tick <= d.frees[i];
      }
    }
  }

  lemma StepSafe<T>(c: Ctrl<T>, op: Op<T>)
    requires Safe(c) && c.st.sync.external && Legal(c, op)
    ensures Safe(Step(c, op)) && Step(c, op).st.sync.external
  {
    match op
    case Go => GoSafe(c);
    case RunMsg(time) => UpOvershoot(c.tick, c.offset, time);
    case GetReply(time) => UpOvershoot(c.tick, c.offset, time);
    case FreeUntil(time) =>
      DownGalois(c.tick, c.offset, time, TickDown(c.tick, c.offset, time));
      var d := Step(c, op);
      forall i | 0 <= i < |c.frees| ensures d.frees[i] == c.frees[i] {}
      assert d.frees[|c.frees|] == time;
    case _ =>
  }

  /**
   * In every reachable state local time is less than one tick past the last time the calendar
   * granted, or at least one tick below a bound up to which it allowed free running.
   */
  lemma {:induction false} TimeTravelSafety<T>(c: Ctrl<T>, ops: seq<Op<T>>)
    requires Safe(c) && c.st.sync.external && LegalRun(c, ops)
    ensures Safe(Execute(c, ops))
    decreases |ops|
  {
    if ops != [] {
      StepSafe(c, ops[0]);
      TimeTravelSafety(Step(c, ops[0]), ops[1..]);
    }
  }

  lemma StartIsSafe<T>(st: State<T>, tick: int)
    requires tick > 0
    ensures Safe(StartCtrl(st, tick)) && LocalTime(StartCtrl(st, tick)) == 0 && Connected(StartCtrl(st, tick))
  {
    assert tick * st.now == st.now * tick;
  }

  /**
   * usfstl_sched_set_time's assertions let a granted time through exactly when it is less than a tick
   * behind local time and, unless no job is listed, not past the time last requested.
   */
  lemma GrantAccepted<T>(c: Ctrl<T>, time: int)
    requires c.tick > 0
    ensures TimeAccepted(c.st, TickUp(c.tick, c.offset, time)) <==>
      LocalTime(c) - c.tick < time && (c.st.jobs == [] || time <= Outer(c.tick, c.offset, c.st.sync.prev))
  {
    UpGalois(c.tick, c.offset, time, c.st.sync.prev);
    UpGalois(c.tick, c.offset, time, c.st.now - 1);
    assert Outer(c.tick, c.offset, c.st.now - 1) == LocalTime(c) - c.tick;
    hide TickUp, Outer;
  }

  /**
   * A job added while START is being acknowledged: the hook is set, so the add records its start as
   * requested, but sends nothing yet. Then usfstl_sched_ctrl_start asks for the job's start without
   * the offset, and at the wait for the job, as the start is recorded, nothing more is asked. A
   * calendar that grants the one request it got takes the local clock past the job by all that it
   * stood at, and the assertion lets that through if and only if the clock stood at 0.
   */
  lemma StartRequestOvershoots<T>(st: State<T>, tick: int, job: T, start: int, priority: int, group: int)
    requires tick > 0 && st.jobs == [] && st.pending == [] && 0 <= st.now < start && group !in st.blocked
    ensures var added := Step(StartCtrl(st, tick), Add(job, start, priority, group));
      var c := GoOn(added);
      && added.st.sync.requests == [start] && added.st.sync.prev == start
      && c.phase == Waiting(Some(job)) && c.st.sync.requests == added.st.sync.requests
      && Step(c, RunMsg(start * tick)).st.now == start + st.now
      && (Legal(c, RunMsg(start * tick)) <==> st.now == 0)
  {
    var offset := -st.now * tick;
    assert Outer(tick, offset, start + st.now) == start * tick by {
      assert tick * (start + st.now) == start * tick + st.now * tick;
      assert -st.now * tick == -(st.now * tick);
    }
    RoundTrip(tick, offset, start + st.now);
    InsertCons(Unbounded, [], Item(job, st.adds, start, priority, group));
    hide Outer, TickUp, Insert;
  }

  // ---------- what is asked of the calendar, and what its messages do ----------

  /** The time a step needs: that of an added job that may run, or of a first job that is not due. */
  function Needed<T(==)>(c: Ctrl<T>, op: Op<T>): Option<int> {
    match op
    case Add(job, start, _, group) => if group in c.st.blocked && c.st.allowed != Some(job) then None else Some(start)
    case Go => if c.st.jobs == [] || c.st.jobs[0].start <= c.st.now then None else Some(c.st.jobs[0].start)
    case _ => None
  }

  /**
   * The step asks for the time it needs exactly if the program waits or the time is not below the bound
   * for running freely, and it is not the time asked for last; nothing else is asked for. Beginning to
   * wait forgets what was asked for last.
   */
  ghost predicate AsksRightly<T>(c: Ctrl<T>, op: Op<T>)
    requires c.tick > 0
  {
    var y, z, time := c.st.sync, Step(c, op).st.sync, Needed(c, op);
    var asks := time.Some? && (y.waiting || !y.nextSet || y.next <= time.value) && !(y.prevSet && time.value == y.prev);
    && z.requests == (if asks then y.requests + [time.value] else y.requests)
    && z.prev == (if asks then time.value else y.prev)
    && z.prevSet == ((y.prevSet || asks) && !(op.Go? && z.waiting))
  }

  ghost predicate AsksRightlyThroughout<T>(c: Ctrl<T>, ops: seq<Op<T>>)
    requires c.tick > 0
    decreases |ops|
  {
    ops == [] || (AsksRightly(c, ops[0]) && AsksRightlyThroughout(Step(c, ops[0]), ops[1..]))
  }

  /** The program waits exactly while its loop does. */
  ghost predicate Connected<T>(c: Ctrl<T>) {
    c.tick > 0 && c.st.sync.external && (c.phase.Waiting? <==> c.st.sync.waiting)
  }

  lemma StepAsksRightly<T>(c: Ctrl<T>, op: Op<T>)
    requires Connected(c) && Legal(c, op)
    ensures AsksRightly(c, op) && Connected(Step(c, op))
  {
    hide Insert, Without, TickUp, TickDown;
  }

  /** So it is at every step of every run of a connected scheduler. */
  lemma {:induction false} RunAsksRightly<T>(c: Ctrl<T>, ops: seq<Op<T>>)
    requires Connected(c) && LegalRun(c, ops)
    ensures AsksRightlyThroughout(c, ops)
    decreases |ops|
  {
    if ops != [] {
      StepAsksRightly(c, ops[0]);
      hide AsksRightly, Step, Legal, Connected;
      RunAsksRightly(Step(c, ops[0]), ops[1..]);
    }
  }

  /**
   * Going on: a first job that is due runs at once; one that is not is run freely at its start exactly if
   * that is below the bound, and is waited for otherwise, as is whatever comes when there is none.
   */
  lemma GoesOn<T>(c: Ctrl<T>)
    requires Connected(c) && Legal(c, Go)
    ensures var d := Step(c, Go);
      if c.st.jobs == [] then
        d.phase == Waiting(None) && d.st == c.st.(sync := d.st.sync) && d.st.sync.waiting && d.ran == c.ran
      else
        var first := c.st.jobs[0];
        if first.start <= c.st.now || (c.st.sync.nextSet && first.start < c.st.sync.next) then
          var time := if first.start <= c.st.now then c.st.now else first.start;
          && d.phase == Top && d.st == c.st.(now := time, jobs := c.st.jobs[1..])
          && d.ran == c.ran + [Ran(first, time, c.st.adds)]
        else
          d.phase == Waiting(Some(first.job)) && d.st == c.st.(sync := d.st.sync) && d.st.sync.waiting && d.ran == c.ran
  {
  }

  /** tick is the least one that is not before the calendar's time. */
  ghost predicate RoundedUp<T>(c: Ctrl<T>, time: int, tick: int) {
    forall t :: tick <= t <==> time <= Outer(c.tick, c.offset, t)
  }

  /** tick is the greatest one that is not after the calendar's time. */
  ghost predicate RoundedDown<T>(c: Ctrl<T>, time: int, tick: int) {
    forall t :: t <= tick <==> Outer(c.tick, c.offset, t) <= time
  }

  /** RUN ends the wait at the least tick not before its time. */
  ghost predicate RunDoes<T>(c: Ctrl<T>, time: int, d: Ctrl<T>) {
    && d == c.(st := c.st.(now := d.st.now, sync := c.st.sync.(waiting := false)), granted := time, phase := d.phase)
    && RoundedUp(c, time, d.st.now) && time <= LocalTime(d) < time + c.tick
    && d.phase == match c.phase case Waiting(Some(job)) => Resumed(job) case _ => Top
  }

  /** FREE_UNTIL lets the program run freely up to the greatest tick not after its time. */
  ghost predicate FreeUntilDoes<T>(c: Ctrl<T>, time: int, d: Ctrl<T>) {
    && d == c.(st := c.st.(sync := c.st.sync.(nextSet := true, next := d.st.sync.next)), frees := c.frees + [time])
    && RoundedDown(c, time, d.st.sync.next)
  }

  /** The reply to GET moves the clock to the least tick not before its time, which is the one usfstl_sched_set_time is given. */
  ghost predicate GetReplyDoes<T>(c: Ctrl<T>, time: int, d: Ctrl<T>) {
    && d == c.(st := c.st.(now := d.st.now), granted := time)
    && RoundedUp(c, time, d.st.now) && time <= LocalTime(d) < time + c.tick && TimeAccepted(c.st, d.st.now)
  }

  lemma UpRounds<T>(c: Ctrl<T>, time: int)
    requires c.tick > 0
    ensures RoundedUp(c, time, TickUp(c.tick, c.offset, time))
  {
    forall t ensures TickUp(c.tick, c.offset, time) <= t <==> time <= Outer(c.tick, c.offset, t) {
      UpGalois(c.tick, c.offset, time, t);
    }
    hide TickUp, Outer;
  }

  lemma DownRounds<T>(c: Ctrl<T>, time: int)
    requires c.tick > 0
    ensures RoundedDown(c, time, TickDown(c.tick, c.offset, time))
  {
    forall t ensures t <= TickDown(c.tick, c.offset, time) <==> Outer(c.tick, c.offset, t) <= time {
      DownGalois(c.tick, c.offset, time, t);
    }
    hide TickDown, Outer;
  }

  /** What each message from the calendar does, in terms of the time it carries. */
  lemma MessagesDo<T>(c: Ctrl<T>, op: Op<T>)
    requires c.tick > 0 && Legal(c, op)
    ensures op.RunMsg? ==> RunDoes(c, op.time, Step(c, op)) && TimeAccepted(c.st, Step(c, op).st.now)
    ensures op.FreeUntil? ==> FreeUntilDoes(c, op.time, Step(c, op))
    ensures op.GetReply? ==> GetReplyDoes(c, op.time, Step(c, op))
  {
    if op.RunMsg? || op.GetReply? {
      UpRounds(c, op.time);
      UpOvershoot(c.tick, c.offset, op.time);
    } else if op.FreeUntil? {
      DownRounds(c, op.time);
    }
    hide RoundedUp, RoundedDown, TickUp, TickDown, Outer;
  }

  // ---------- when jobs run, under a calendar that grants the last time requested ----------

  /** The calendar grants what was last requested, and while the program runs its clock does not. */
  ghost predicate Honest<T>(c: Ctrl<T>, op: Op<T>) {
    match op
    case RunMsg(time) => time == Outer(c.tick, c.offset, c.st.sync.prev)
    case GetReply(time) => c.phase.Waiting? || time <= LocalTime(c)
    case _ => true
  }

  /** While the program waits, no job is deleted. */
  ghost predicate OnlyAdds<T>(c: Ctrl<T>, op: Op<T>) {
    op.Del? ==> !c.phase.Waiting?
  }

  /** While the program waits, a job is added only if due no later than all others, and the first is not deleted. */
  ghost predicate OnlyEarlierAdds<T>(c: Ctrl<T>, op: Op<T>) {
    c.phase.Waiting? && c.st.jobs != [] ==>
      (op.Add? ==> op.start <= c.st.jobs[0].start) && (op.Del? ==> op.job != c.st.jobs[0].job)
  }

  ghost predicate HonestRun<T>(c: Ctrl<T>, ops: seq<Op<T>>, punctual: bool)
    requires c.tick > 0
    decreases |ops|
  {
    ops == [] || (Legal(c, ops[0]) && Honest(c, ops[0])
      && (if punctual then OnlyEarlierAdds(c, ops[0]) else OnlyAdds(c, ops[0]))
      && HonestRun(Step(c, ops[0]), ops[1..], punctual))
  }

  ghost predicate Base<T>(c: Ctrl<T>) {
    && c.tick > 0 && c.st.blocked == {} && Sorted(c.st.jobs) && c.st.sync.external
    && (c.phase.Waiting? <==> c.st.sync.waiting)
  }

  /** No callback so far ran before its job's start. */
  ghost predicate NeverEarly<T>(c: Ctrl<T>) {
    && Base(c) && (forall i :: 0 <= i < |c.ran| ==> c.ran[i].item.start <= c.ran[i].time)
    && (c.phase.Waiting? && c.st.jobs != [] ==> c.st.jobs[0].start <= c.st.sync.prev)
    && (c.phase.Resumed? && c.st.jobs != [] ==> c.st.jobs[0].start <= c.st.now)
  }

  /** Every callback so far ran at its job's start. */
  ghost predicate Punctual<T>(c: Ctrl<T>) {
    && Base(c) && (forall i :: 0 <= i < |c.ran| ==> c.ran[i].item.start == c.ran[i].time)
    && (forall i :: 0 <= i < |c.st.jobs| ==> c.st.now <= c.st.jobs[i].start)
    && (c.phase.Waiting? && c.st.jobs != [] ==> c.st.jobs[0].start == c.st.sync.prev)
    && (c.phase.Resumed? && c.st.jobs != [] ==> c.st.jobs[0].start == c.st.now)
  }

  /** A request made while waiting is always the one the calendar holds afterwards. */
  lemma WaitingRequest(y: Sync, time: int)
    requires y.external && y.waiting
    ensures var r := Request(Unbounded, y, time); r.0 && r.1.prev == time && r.1.waiting && r.1.external
  {
  }

  lemma InsertFirst<T>(s: seq<Item<T>>, x: Item<T>)
    requires Sorted(s)
    ensures var r := Insert(Unbounded, s, x);
      && Sorted(r) && r != [] && r[0].start == (if s == [] || x.start <= s[0].start then x.start else s[0].start)
      && forall i :: 0 <= i < |r| ==> r[i] == x || r[i] in s
  {
    InsertSorted(s, x);
    InsertCons(Unbounded, s, x);
    InsertOnly(s, x);
    hide Insert, Sorted;
  }

  lemma InsertOnly<T>(s: seq<Item<T>>, x: Item<T>)
    ensures forall i :: 0 <= i < |Insert(Unbounded, s, x)| ==> Insert(Unbounded, s, x)[i] == x || Insert(Unbounded, s, x)[i] in s
  {
    hide GoesBefore;
  }

  lemma WithoutFirst<T>(s: seq<Item<T>>, job: T)
    requires Sorted(s)
    ensures Sorted(Without(s, job))
    ensures forall i :: 0 <= i < |Without(s, job)| ==> Without(s, job)[i] in s
    ensures s != [] && s[0].job != job ==> Without(s, job) != [] && Without(s, job)[0] == s[0]
  {
    WithoutIn(s, job);
  }

  lemma AddStep<T>(c: Ctrl<T>, op: Op<T>)
    requires Base(c) && op.Add? && Legal(c, op)
    ensures var d := Step(c, op);
      && Base(d) && d == c.(st := d.st) && d.st.now == c.st.now && d.st.jobs != []
      && d.st.jobs[0].start == (if c.st.jobs == [] || op.start <= c.st.jobs[0].start then op.start else c.st.jobs[0].start)
      && (forall i :: 0 <= i < |d.st.jobs| ==> d.st.jobs[i].start == op.start || d.st.jobs[i] in c.st.jobs)
      && (c.phase.Waiting? ==> d.st.sync.prev == op.start)
  {
    InsertFirst(c.st.jobs, Item(op.job, c.st.adds, op.start, op.priority, op.group));
    if c.phase.Waiting? { WaitingRequest(c.st.sync, op.start); }
    hide Sorted, Insert;
  }

  lemma GoStep<T>(c: Ctrl<T>)
    requires Base(c) && c.phase.Top?
    ensures Base(GoOn(c))
    ensures NeverEarly(c) ==> NeverEarly(GoOn(c))
    ensures Punctual(c) ==> Punctual(GoOn(c))
  {
    if c.st.jobs != [] {
      var first, rest := c.st.jobs[0], c.st.jobs[1..];
      assert forall i :: 0 <= i < |rest| ==> Ordered(first, rest[i]) by {
        assert forall i :: 0 <= i < |rest| ==> rest[i] == c.st.jobs[i + 1];
      }
      assert Sorted(rest);
    }
  }

  lemma ResumeStep<T>(c: Ctrl<T>)
    requires Base(c) && c.phase.Resumed?
    ensures NeverEarly(c) ==> NeverEarly(Step(c, Resume))
    ensures Punctual(c) ==> Punctual(Step(c, Resume))
  {
    if c.st.jobs != [] { assert Sorted(c.st.jobs[1..]); }
  }

  lemma SortedFloor<T>(s: seq<Item<T>>, now: int)
    requires Sorted(s) && s != [] && now <= s[0].start
    ensures forall i :: 0 <= i < |s| ==> now <= s[i].start
  {
    forall i | 0 < i < |s| ensures now <= s[i].start { assert Ordered(s[0], s[i]); }
  }

  /** RUN and GET: an honest calendar moves the clock to the tick last requested, or no further than it. */
  lemma ClockStep<T>(c: Ctrl<T>, op: Op<T>)
    requires Base(c) && (op.RunMsg? || op.GetReply?) && Legal(c, op) && Honest(c, op)
    ensures NeverEarly(c) ==> NeverEarly(Step(c, op))
    ensures Punctual(c) ==> Punctual(Step(c, op))
  {
    RoundTrip(c.tick, c.offset, c.st.sync.prev);
    if op.GetReply? && !c.phase.Waiting? { UpGalois(c.tick, c.offset, op.time, c.st.now); }
    hide Outer, TickUp, Sorted;
    if c.st.jobs != [] && c.phase.Waiting? && Punctual(c) {
      SortedFloor(c.st.jobs, c.st.sync.prev);
    }
  }

  lemma NeverEarlyStep<T>(c: Ctrl<T>, op: Op<T>)
    requires NeverEarly(c) && Legal(c, op) && Honest(c, op) && OnlyAdds(c, op)
    ensures NeverEarly(Step(c, op))
  {
    match op
    case Add(_, _, _, _) => AddStep(c, op); hide Sorted, Insert;
    case Del(job) => WithoutFirst(c.st.jobs, job); hide Sorted;
    case Go => GoStep(c);
    case Resume => ResumeStep(c);
    case FreeUntil(_) =>
    case _ => ClockStep(c, op);
  }

  /** If jobs are only added while the program waits, none ever runs before its start. */
  lemma {:induction false} NeverEarlyRun<T>(c: Ctrl<T>, ops: seq<Op<T>>)
    requires NeverEarly(c) && HonestRun(c, ops, false)
    ensures NeverEarly(Execute(c, ops))
    decreases |ops|
  {
    if ops != [] {
      NeverEarlyStep(c, ops[0]);
      NeverEarlyRun(Step(c, ops[0]), ops[1..]);
    }
  }

  lemma PunctualStep<T>(c: Ctrl<T>, op: Op<T>)
    requires Punctual(c) && Legal(c, op) && Honest(c, op) && OnlyEarlierAdds(c, op)
    ensures Punctual(Step(c, op))
  {
    match op
    case Add(_, _, _, _) => AddStep(c, op); hide Sorted, Insert;
    case Del(job) => WithoutFirst(c.st.jobs, job); hide Sorted;
    case Go => GoStep(c);
    case Resume => ResumeStep(c);
    case FreeUntil(_) =>
    case _ => ClockStep(c, op);
  }

  /** If a job added during a wait is always due first, and the first job is not deleted, all run at their start. */
  lemma {:induction false} PunctualRun<T>(c: Ctrl<T>, ops: seq<Op<T>>)
    requires Punctual(c) && HonestRun(c, ops, true)
    ensures Punctual(Execute(c, ops))
    decreases |ops|
  {
    if ops != [] {
      PunctualStep(c, ops[0]);
      PunctualRun(Step(c, ops[0]), ops[1..]);
    }
  }

  lemma StartIsPunctual<T>(st: State<T>, tick: int)
    requires tick > 0 && st.blocked == {} && Sorted(st.jobs) && forall i :: 0 <= i < |st.jobs| ==> st.now <= st.jobs[i].start
    ensures Punctual(StartCtrl(st, tick)) && NeverEarly(StartCtrl(st, tick))
  {
  }

  // ---------- what a wait disturbed by adds and deletes comes to ----------

  /** The start of the last job added in ops, or start if none is. */
  function LastAsked<T>(ops: seq<Op<T>>, start: int): int
    decreases |ops|
  {
    if ops == [] then start
    else LastAsked(ops[1..], if ops[0].Add? then ops[0].start else start)
  }

  /** What the program does to its own jobs, and what the calendar says about free running. */
  ghost predicate Edits<T>(ops: seq<Op<T>>) {
    forall i :: 0 <= i < |ops| ==> ops[i].Add? || ops[i].Del? || ops[i].FreeUntil?
  }

  lemma EditStep<T>(c: Ctrl<T>, op: Op<T>)
    requires Base(c) && c.phase.Waiting? && Legal(c, op) && (op.Add? || op.Del? || op.FreeUntil?)
    ensures var d := Step(c, op);
      && Base(d) && d.phase == c.phase && d.st.now == c.st.now && d.ran == c.ran && d.offset == c.offset
      && d.st.sync.prev == (if op.Add? then op.start else c.st.sync.prev) && (op.Add? ==> c.st.now <= op.start)
  {
    if op.Add? { AddStep(c, op); }
    if op.Del? { WithoutFirst(c.st.jobs, op.job); }
    hide Sorted, Insert;
  }

  lemma {:induction false} EditsDuringWait<T>(c: Ctrl<T>, ops: seq<Op<T>>)
    requires Base(c) && c.phase.Waiting? && LegalRun(c, ops) && Edits(ops)
    ensures var d := Execute(c, ops);
      && Base(d) && d.phase == c.phase && d.st.now == c.st.now && d.ran == c.ran
      && d.st.sync.prev == LastAsked(ops, c.st.sync.prev) && (c.st.now <= c.st.sync.prev ==> d.st.now <= d.st.sync.prev)
    decreases |ops|
  {
    if ops != [] {
      assert ops[0].Add? || ops[0].Del? || ops[0].FreeUntil?;
      EditStep(c, ops[0]);
      hide Base, Step, Legal;
      assert Edits(ops[1..]);
      EditsDuringWait(Step(c, ops[0]), ops[1..]);
    }
  }

  /** The program goes on after a wait for a job that ends with the last request granted. */
  function Continued<T(==)>(d: Ctrl<T>, job: T): Ctrl<T>
    requires d.tick > 0
  {
    var e := Step(Step(d, RunMsg(Outer(d.tick, d.offset, d.st.sync.prev))), Resume);
    if d.st.jobs != [] && d.st.jobs[0].job == job then e else Step(e, Go)
  }

  /** The first job is the one waited for, or due by the time asked for last. */
  predicate RunsAtOnce<T(==)>(d: Ctrl<T>, job: T) {
    d.st.jobs != [] && (d.st.jobs[0].job == job || d.st.jobs[0].start <= d.st.sync.prev)
  }

  /** What runs when a wait for a job ends. */
  lemma WaitEnds<T>(d: Ctrl<T>, job: T)
    requires Base(d) && d.phase == Waiting(Some(job))
    ensures var f := Continued(d, job);
      && (d.st.jobs == [] ==> f.ran == d.ran && f.phase == Waiting(None))
      && (RunsAtOnce(d, job) ==> f.ran == d.ran + [Ran(d.st.jobs[0], d.st.sync.prev, d.st.adds)])
      && (d.st.jobs != [] && !RunsAtOnce(d, job) ==>
           var first := d.st.jobs[0];
           if d.st.sync.nextSet && first.start < d.st.sync.next then f.ran == d.ran + [Ran(first, first.start, d.st.adds)]
           else f.ran == d.ran && f.phase == Waiting(Some(first.job)) && f.st.sync.prev == first.start)
  {
    RoundTrip(d.tick, d.offset, d.st.sync.prev);
    hide Outer, TickUp, Sorted;
  }

  /**
   * The code does not look at the time again after a wait. Whatever is added and deleted during it,
   * if the job waited for is first when the calendar grants the last request, or another job due by
   * then is, it runs at the last time asked for; a job due later is asked for again, or run at its
   * start where running freely is allowed. So what runs next is on time exactly when nothing runs at
   * once, or what does is due at the time asked for last.
   */
  lemma DisturbedWait<T>(c: Ctrl<T>, job: T, ops: seq<Op<T>>)
    requires Base(c) && c.phase == Waiting(Some(job)) && LegalRun(c, ops) && Edits(ops)
    ensures var d, last := Execute(c, ops), LastAsked(ops, c.st.sync.prev);
      var f := Continued(d, job);
      && d.st.sync.prev == last && (c.st.now <= c.st.sync.prev ==> Legal(d, RunMsg(Outer(d.tick, d.offset, last))))
      && (RunsAtOnce(d, job) ==> f.ran == c.ran + [Ran(d.st.jobs[0], last, d.st.adds)])
      && ((forall i :: |c.ran| <= i < |f.ran| ==> f.ran[i].time == f.ran[i].item.start)
           <==> !RunsAtOnce(d, job) || d.st.jobs[0].start == last)
  {
    EditsDuringWait(c, ops);
    var d := Execute(c, ops);
    WaitEnds(d, job);
    RoundTrip(d.tick, d.offset, d.st.sync.prev);
    hide Outer, TickUp, Base, Continued;
    if RunsAtOnce(d, job) {
      var f := Continued(d, job);
      assert f.ran[|c.ran|] == Ran(d.st.jobs[0], d.st.sync.prev, d.st.adds);
    }
  }

  /** Waiting for a job due at 10, in ticks that are the calendar's units. */
  function WaitingForTen<T(==)>(a: T): Ctrl<T> {
    GoOn(Step(StartCtrl(Start<T>(0).st, 1), Add(a, 10, 0, 0)))
  }

  /** A later add pushes the wake-up back. */
  lemma LateWake<T>(a: T, b: T)
    requires a != b
    ensures var c, ops := WaitingForTen(a), [Op<T>.Add(b, 20, 0, 0)];
      && c.phase == Waiting(Some(a)) && LegalRun(c, ops) && Edits(ops)
      && Continued(Execute(c, ops), a).ran == [Ran(Item(a, 0, 10, 0, 0), 20, 2)]
  {
    var c, add := WaitingForTen(a), Op<T>.Add(b, 20, 0, 0);
    assert c.st.jobs == [Item(a, 0, 10, 0, 0)] && !Listed(c.st.jobs, b);
    var c1 := Step(c, add);
    assert c1.st.jobs == [Item(a, 0, 10, 0, 0), Item(b, 1, 20, 0, 0)];
    assert Base(c) && c.phase == Waiting(Some(a)) && Legal(c, add) && c1.st.adds == 2;
    hide Step, Legal, WaitingForTen;
    var ops := [add];
    assert ops[1..] == [];
    DisturbedWait(c, a, ops);
  }

  lemma OneEdit<T>(c: Ctrl<T>, op: Op<T>)
    requires c.tick > 0 && Legal(c, op)
    ensures LegalRun(c, [op]) && Execute(c, [op]) == Step(c, op)
    ensures forall start :: LastAsked([op], start) == if op.Add? then op.start else start
  {
    assert [op][1..] == [];
    hide Step, Legal;
  }

  lemma TwoEdits<T>(c: Ctrl<T>, first: Op<T>, second: Op<T>)
    requires c.tick > 0 && Legal(c, first) && Step(c, first).tick > 0 && Legal(Step(c, first), second)
    ensures LegalRun(c, [first, second]) && Execute(c, [first, second]) == Step(Step(c, first), second)
    ensures forall start :: LastAsked([first, second], start) == if second.Add? then second.start else if first.Add? then first.start else start
  {
    OneEdit(Step(c, first), second);
    hide Step, Legal;
    var ops := [first, second];
    assert ops[0] == first && ops[1..] == [second];
    forall start
      ensures LastAsked(ops, start) == if second.Add? then second.start else if first.Add? then first.start else start
    {
      assert LastAsked(ops, start) == LastAsked([second], if first.Add? then first.start else start);
    }
  }

  lemma FiveFirst<T>(a: T, b: T)
    requires a != b
    ensures var c, add := WaitingForTen(a), Op<T>.Add(b, 5, 0, 0);
      var d := Step(c, add);
      && Base(c) && c.phase == Waiting(Some(a)) && c.ran == [] && Legal(c, add)
      && Base(d) && d.phase == Waiting(Some(a)) && d.st.now == 0 && d.st.adds == 2
      && d.st.jobs == [Item(b, 1, 5, 0, 0), Item(a, 0, 10, 0, 0)]
  {
    var c, x := WaitingForTen(a), Item(b, 1, 5, 0, 0);
    assert c.st.jobs == [Item(a, 0, 10, 0, 0)] && !Listed(c.st.jobs, b);
    InsertCons(Unbounded, c.st.jobs, x);
    assert Insert(Unbounded, c.st.jobs, x) == [x, Item(a, 0, 10, 0, 0)];
    hide Insert;
  }

  /** An earlier add, deleted again, leaves it too early. */
  lemma EarlyWake<T>(a: T, b: T)
    requires a != b
    ensures var c, ops := WaitingForTen(a), [Op<T>.Add(b, 5, 0, 0), Del(b)];
      && LegalRun(c, ops) && Edits(ops)
      && Continued(Execute(c, ops), a).ran == [Ran(Item(a, 0, 10, 0, 0), 5, 2)]
  {
    var c, add, del := WaitingForTen(a), Op<T>.Add(b, 5, 0, 0), Op<T>.Del(b);
    FiveFirst(a, b);
    hide WaitingForTen;
    var c1 := Step(c, add);
    assert c1.st.jobs[1..] == [Item(a, 0, 10, 0, 0)] && c1.st.jobs[1..][1..] == [];
    assert Without(c1.st.jobs[1..], b) == [Item(a, 0, 10, 0, 0)];
    var c2 := Step(c1, del);
    assert c2.st.jobs == [Item(a, 0, 10, 0, 0)] && c2.st.adds == 2 && Legal(c1, del);
    hide Step, Legal, Base;
    TwoEdits(c, add, del);
    var ops := [add, del];
    DisturbedWait(c, a, ops);
  }

  lemma AddBehind<T>(c: Ctrl<T>, op: Op<T>)
    requires op.Add? && c.tick > 0 && c.st.blocked == {} && c.st.jobs != [] && c.st.jobs[0].start < op.start
    ensures var d := Step(c, op); d.st.jobs != [] && d.st.jobs[0] == c.st.jobs[0] && d.st.adds == c.st.adds + 1
  {
    InsertCons(Unbounded, c.st.jobs, Item(op.job, c.st.adds, op.start, op.priority, op.group));
    hide Insert;
  }

  /** And of two earlier adds, the later one makes the other late. */
  lemma LateOther<T>(a: T, b: T, d: T)
    requires a != b && a != d && b != d
    ensures var c, ops := WaitingForTen(a), [Op<T>.Add(b, 5, 0, 0), Op<T>.Add(d, 7, 0, 0)];
      && LegalRun(c, ops) && Edits(ops)
      && Continued(Execute(c, ops), a).ran == [Ran(Item(b, 1, 5, 0, 0), 7, 3)]
  {
    var c, add, more := WaitingForTen(a), Op<T>.Add(b, 5, 0, 0), Op<T>.Add(d, 7, 0, 0);
    FiveFirst(a, b);
    hide WaitingForTen;
    var c1 := Step(c, add);
    assert Legal(c1, more);
    AddBehind(c1, more);
    hide Step, Legal, Base;
    TwoEdits(c, add, more);
    var ops := [add, more];
    DisturbedWait(c, a, ops);
  }

  /** So the first of three disturbed waits for the job due at 10 runs it at 20, the second at 5, and the third runs one due at 5 at 7. */
  lemma DisturbedWaitsGoWrong()
    ensures var c := WaitingForTen(1);
      && Continued(Execute(c, [Op<int>.Add(2, 20, 0, 0)]), 1).ran == [Ran(Item(1, 0, 10, 0, 0), 20, 2)]
      && Continued(Execute(c, [Op<int>.Add(2, 5, 0, 0), Del(2)]), 1).ran == [Ran(Item(1, 0, 10, 0, 0), 5, 2)]
      && Continued(Execute(c, [Op<int>.Add(2, 5, 0, 0), Op<int>.Add(3, 7, 0, 0)]), 1).ran == [Ran(Item(2, 1, 5, 0, 0), 7, 3)]
  {
    LateWake(1, 2);
    EarlyWake(1, 2);
    LateOther(1, 2, 3);
    hide WaitingForTen, Execute, Continued;
  }
}
