/** A scheduler linked to a parent that nothing external drives: requests, waits and syncs across the link. */
module Linked {
  import opened Clock
  import opened Common
  import opened SchedState
  import opened SchedRuns
  import opened Ticks

  /** The parent's jobs: the link's own, and any others. */
  datatype ParentJob<+P> = LinkJob | Other(job: P)

  datatype Link<+C, +P> = Link(child: State<C>, parent: State<ParentJob<P>>, ratio: int, offset: int)

  datatype Op<+C, +P> =
    | ChildAdd(job: C, start: int, priority: int, group: int)
    | ChildDel(job: C)
    | ChildRun
    | ChildForward
    | ChildIdle
    | ParentAdd(other: P, start: int, priority: int, group: int)
    | ParentDel(other: P)
    | ParentRun
    | ChildSync

  /** usfstl_sched_link_external_request */
  function LinkRequest<P(==)>(parent: State<ParentJob<P>>, time: int): State<ParentJob<P>> {
    Add(Unbounded, Del(parent, LinkJob), LinkJob, time, 0, 0)
  }

  /** Gives the child the state y of its integration, passing a request made on the way on to the parent. */
  function Relay<C, P(==)>(l: Link<C, P>, y: Sync): Link<C, P> {
    if y.requests == l.child.sync.requests then l.(child := l.child.(sync := y))
    else l.(child := l.child.(sync := y), parent := LinkRequest(l.parent, Outer(l.ratio, l.offset, y.prev)))
  }

  /** usfstl_sched_link_external_sync_from: the child's time as the parent's clock has it. */
  function SyncFrom<C, P>(l: Link<C, P>): int
    requires l.ratio > 0
  {
    TickUp(l.ratio, l.offset, l.parent.now)
  }

  /**
   * One step. `ChildForward` ends with the child waiting, and so does `ChildIdle`, for a child with nothing to run; the wait ends with the parent running the
   * link's job. ParentRun during the wait is one turn of the loop in usfstl_sched_link_external_wait.
   */
  function Step<C(==), P(==)>(l: Link<C, P>, op: Op<C, P>): Link<C, P>
    requires l.ratio > 0
  {
    match op
    case ChildAdd(job, start, priority, group) =>
      var child := Add(Unbounded, l.child, job, start, priority, group);
      Relay(l.(child := child.(sync := l.child.sync)), child.sync)
    case ChildDel(job) => l.(child := Del(l.child, job))
    case ChildRun => if l.child.jobs == [] then l else l.(child := l.child.(jobs := l.child.jobs[1..]))
    case ChildForward =>
      if l.child.jobs == [] then l else
        var r := Relay(l, Request(Unbounded, l.child.sync, l.child.jobs[0].start).1);
        r.(child := r.child.(sync := r.child.sync.(prevSet := false, waiting := true)))
    case ChildIdle => l.(child := l.child.(sync := l.child.sync.(prevSet := false, waiting := true)))
    case ParentAdd(job, start, priority, group) => l.(parent := Add(Unbounded, l.parent, Other(job), start, priority, group))
    case ParentDel(job) => l.(parent := Del(l.parent, Other(job)))
    case ParentRun =>
      if l.parent.jobs == [] then l else
        var r := l.(parent := RunFirst(Unbounded, l.parent));
        if l.parent.jobs[0].job.LinkJob? then
          r.(child := r.child.(now := SyncFrom(r), sync := r.child.sync.(waiting := false)))
        else r
    case ChildSync => l.(child := l.child.(now := SyncFrom(l)))
  }

  /** What the steps' assertions and the loop structure demand, for a parent whose callbacks add no child jobs. */
  ghost predicate Legal<C, P>(l: Link<C, P>, op: Op<C, P>) {
    match op
    case ChildAdd(job, start, _, _) => !l.child.sync.waiting && l.child.now <= start && !Listed(l.child.jobs, job)
    case ChildDel(_) => !l.child.sync.waiting
    case ChildRun => !l.child.sync.waiting && l.child.jobs != [] && l.child.jobs[0].start <= l.child.now
    case ChildForward => !l.child.sync.waiting && l.child.jobs != [] && l.child.jobs[0].start > l.child.now
    case ChildIdle => !l.child.sync.waiting && l.child.jobs == []
    case ParentAdd(job, start, _, _) => l.parent.now <= start && !Listed(l.parent.jobs, Other(job))
    case ParentDel(_) => true
    case ParentRun => l.child.sync.waiting && l.parent.jobs != []
    case ChildSync => l.child.sync.waiting
  }

  /** Wherever the link's job is listed in the parent, it is at the time that stands for the tick. */
  ghost predicate AtTick<C, P>(l: Link<C, P>, tick: int) {
    forall i :: 0 <= i < |l.parent.jobs| && l.parent.jobs[i].job.LinkJob? ==> l.parent.jobs[i].start == Outer(l.ratio, l.offset, tick)
  }

  /** And it is listed. */
  ghost predicate Armed<C, P>(l: Link<C, P>, tick: int) {
    Listed(l.parent.jobs, LinkJob) && AtTick(l, tick)
  }

  ghost predicate Loose<T>(st: State<T>) {
    && Sorted(st.jobs) && (forall i :: 0 <= i < |st.jobs| ==> st.now <= st.jobs[i].start)
    && st.blocked == {} && st.pending == []
  }

  /**
   * While the child runs, the parent stands exactly at the child's time; while it waits for a job,
   * the parent is still on its way to the tick that job asked for. Without a job it may wait for
   * what it asked for last, or for nothing.
   */
  ghost predicate Inv<C, P>(l: Link<C, P>) {
    && l.ratio > 0 && Loose(l.child) && Loose(l.parent) && AtTick(l, l.child.sync.prev)
    && l.child.sync.external && !l.child.sync.nextSet && !l.parent.sync.external
    && (!l.child.sync.waiting ==> l.parent.now == Outer(l.ratio, l.offset, l.child.now))
    && (!l.child.sync.waiting && l.child.sync.prevSet ==> Armed(l, l.child.sync.prev))
    && (l.child.sync.waiting ==>
          && !l.child.sync.prevSet && l.child.now <= SyncFrom(l)
          && (l.child.jobs != [] ==> Armed(l, l.child.sync.prev) && l.child.jobs[0].start == l.child.sync.prev))
  }

  // ---------- the two schedulers' lists ----------

  lemma AddLoose<T>(st: State<T>, job: T, start: int, priority: int, group: int)
    requires Loose(st) && st.now <= start
    ensures var r := Add(Unbounded, st, job, start, priority, group);
      && Loose(r) && r.now == st.now
      && (forall x :: x in r.jobs <==> x in st.jobs || x == Item(job, st.adds, start, priority, group))
  {
    var x := Item(job, st.adds, start, priority, group);
    InsertSorted(st.jobs, x);
    var k, r := Slot(Unbounded, st.jobs, x), Insert(Unbounded, st.jobs, x);
    assert st.jobs == st.jobs[..k] + st.jobs[k..];
  }

  lemma DelLoose<T>(st: State<T>, job: T)
    requires Loose(st)
    ensures Loose(Del(st, job)) && forall x :: x in Del(st, job).jobs <==> x in st.jobs && x.job != job
  {
    WithoutIn(st.jobs, job);
    WithoutMembers(st.jobs, job);
    forall i | 0 <= i < |Without(st.jobs, job)| ensures st.now <= Without(st.jobs, job)[i].start {
      assert Without(st.jobs, job)[i] in st.jobs;
    }
  }

  ghost predicate AtTimeIn<P>(s: seq<Item<ParentJob<P>>>, time: int) {
    forall x :: x in s && x.job == LinkJob ==> x.start == time
  }

  ghost predicate LinkIn<P>(s: seq<Item<ParentJob<P>>>) {
    exists x :: x in s && x.job == LinkJob
  }

  lemma ArmedIs<C, P>(l: Link<C, P>, tick: int)
    ensures AtTick(l, tick) <==> AtTimeIn(l.parent.jobs, Outer(l.ratio, l.offset, tick))
    ensures Listed(l.parent.jobs, LinkJob) <==> LinkIn(l.parent.jobs)
  {
    if Listed(l.parent.jobs, LinkJob) {
      var i :| 0 <= i < |l.parent.jobs| && l.parent.jobs[i].job == LinkJob;
      assert l.parent.jobs[i] in l.parent.jobs;
    }
    if LinkIn(l.parent.jobs) {
      var x :| x in l.parent.jobs && x.job == LinkJob;
      var i :| 0 <= i < |l.parent.jobs| && l.parent.jobs[i] == x;
    }
  }

  lemma RequestArms<P>(parent: State<ParentJob<P>>, time: int)
    requires Loose(parent) && parent.now <= time
    ensures var r := LinkRequest(parent, time);
      Loose(r) && LinkIn(r.jobs) && AtTimeIn(r.jobs, time) && r.now == parent.now && r.sync.external == parent.sync.external
  {
    DelLoose(parent, LinkJob);
    AddLoose(Del(parent, LinkJob), LinkJob, time, 0, 0);
    hide Loose, Insert, Without;
    var x: Item<ParentJob<P>> := Item(LinkJob, parent.adds, time, 0, 0);
    assert x in LinkRequest(parent, time).jobs;
  }

  /** A request for a tick that is not over arms the link at that tick, and the parent's assertion holds. */
  lemma RelayArms<C, P>(l: Link<C, P>, tick: int)
    requires Inv(l) && !l.child.sync.waiting && l.child.now <= tick
    ensures var r := Relay(l, Request(Unbounded, l.child.sync, tick).1);
      && l.parent.now <= Outer(l.ratio, l.offset, tick)
      && r == l.(child := r.child, parent := r.parent) && r.child == l.child.(sync := r.child.sync)
      && r.child.sync.prev == tick && r.child.sync.prevSet && !r.child.sync.waiting
      && r.child.sync.external && !r.child.sync.nextSet && !r.parent.sync.external
      && Loose(r.parent) && r.parent.now == l.parent.now && Armed(r, tick)
  {
    OuterOrder(l.ratio, l.offset, l.child.now, tick);
    RequestArms(l.parent, Outer(l.ratio, l.offset, tick));
    ArmedIs(Relay(l, Request(Unbounded, l.child.sync, tick).1), tick);
    hide Loose, AtTick, LinkRequest, LinkIn, AtTimeIn, Outer;
  }

  /** A job the child adds is requested: the link's job is listed in the parent for its start. */
  lemma ChildAddKeeps<C, P>(l: Link<C, P>, op: Op<C, P>)
    requires Inv(l) && op.ChildAdd? && Legal(l, op)
    ensures Inv(Step(l, op))
    ensures Armed(Step(l, op), op.start) && Step(l, op).child.sync.prev == op.start
    ensures Step(l, op).child == Add(Unbounded, l.child, op.job, op.start, op.priority, op.group)
  {
    AddLoose(l.child, op.job, op.start, op.priority, op.group);
    RelayArms(l, op.start);
    hide Loose, AtTick, Insert, Outer, SyncFrom;
  }

  /** A child whose first job is not due waits, with the link's job listed in the parent for that job's start. */
  lemma ChildForwardKeeps<C, P>(l: Link<C, P>)
    requires Inv(l) && Legal(l, ChildForward)
    ensures Inv(Step(l, ChildForward))
    ensures Step(l, ChildForward).child.sync.waiting && Armed(Step(l, ChildForward), l.child.jobs[0].start)
    ensures Step(l, ChildForward).child == l.child.(sync := Step(l, ChildForward).child.sync)
  {
    var tick := l.child.jobs[0].start;
    RelayArms(l, tick);
    RoundTrip(l.ratio, l.offset, l.child.now);
    var r := Step(l, ChildForward);
    ArmedIs(Relay(l, Request(Unbounded, l.child.sync, tick).1), tick);
    ArmedIs(r, tick);
    hide Loose, AtTick, Outer, TickUp;
  }

  lemma ChildIdleKeeps<C, P>(l: Link<C, P>)
    requires Inv(l) && Legal(l, ChildIdle)
    ensures Inv(Step(l, ChildIdle))
    ensures Step(l, ChildIdle).child.sync.waiting && Step(l, ChildIdle).parent == l.parent
  {
    RoundTrip(l.ratio, l.offset, l.child.now);
    ArmedIs(l, l.child.sync.prev);
    ArmedIs(Step(l, ChildIdle), l.child.sync.prev);
    hide Loose, AtTick, Outer, TickUp;
  }

  lemma ParentListKeeps<C, P>(l: Link<C, P>, parent: State<ParentJob<P>>)
    requires Inv(l) && Loose(parent) && parent.now == l.parent.now && !parent.sync.external
    requires forall x: Item<ParentJob<P>> :: x.job == LinkJob ==> (x in parent.jobs <==> x in l.parent.jobs)
    ensures Inv(l.(parent := parent))
  {
    ArmedIs(l, l.child.sync.prev);
    ArmedIs(l.(parent := parent), l.child.sync.prev);
    hide Loose, AtTick, Outer, TickUp;
  }

  /**
   * While the child waits, its own time per the parent's clock, which is the least tick not before it,
   * never passes the tick it asked for, as long as that request is listed; for a child with a job it is,
   * and is for its first job.
   */
  lemma SyncNeverPassesRequest<C, P>(l: Link<C, P>)
    requires Inv(l) && l.child.sync.waiting
    ensures l.child.now <= SyncFrom(l)
    ensures Listed(l.parent.jobs, LinkJob) ==> SyncFrom(l) <= l.child.sync.prev
    ensures l.child.jobs != [] ==> Listed(l.parent.jobs, LinkJob) && l.child.sync.prev == l.child.jobs[0].start
    ensures forall t :: SyncFrom(l) <= t <==> l.parent.now <= Outer(l.ratio, l.offset, t)
    ensures Step(l, ChildSync) == l.(child := l.child.(now := SyncFrom(l)))
  {
    forall t ensures SyncFrom(l) <= t <==> l.parent.now <= Outer(l.ratio, l.offset, t) {
      UpGalois(l.ratio, l.offset, l.parent.now, t);
    }
    if Listed(l.parent.jobs, LinkJob) {
      var i :| 0 <= i < |l.parent.jobs| && l.parent.jobs[i].job.LinkJob?;
      UpGalois(l.ratio, l.offset, l.parent.now, l.child.sync.prev);
    }
    hide Outer, TickUp;
  }

  /** One turn of the wait: the parent gets no further than the link's job, and stops there exactly. */
  lemma ParentRunKeeps<C, P>(l: Link<C, P>)
    requires Inv(l) && Legal(l, ParentRun)
    ensures Inv(Step(l, ParentRun))
    ensures l.parent.jobs[0].job.LinkJob? ==>
      && Step(l, ParentRun).child.now == l.child.sync.prev
      && Step(l, ParentRun).parent.now == Outer(l.ratio, l.offset, l.child.sync.prev)
      && Step(l, ParentRun).child.jobs == l.child.jobs
      && (l.child.jobs != [] ==> l.child.sync.prev == l.child.jobs[0].start)
    ensures !l.parent.jobs[0].job.LinkJob? ==>
      Step(l, ParentRun) == l.(parent := l.parent.(now := l.parent.jobs[0].start, jobs := l.parent.jobs[1..]))
  {
    var prev, first, rest := l.child.sync.prev, l.parent.jobs[0], l.parent.jobs[1..];
    var p := RunFirst(Unbounded, l.parent);
    RunLoose(l.parent);
    assert l.parent.jobs == [first] + rest;
    ArmedIs(l, prev);
    ArmedIs(l.(parent := p), prev);
    SyncNeverPassesRequest(l);
    if first.job.LinkJob? {
      assert first in l.parent.jobs;
      RoundTrip(l.ratio, l.offset, prev);
      if l.child.jobs != [] { LoosenChild(l, prev); } else { assert Loose(l.child.(now := prev)); }
    } else {
      UpMonotone(l.ratio, l.offset, l.parent.now, p.now);
    }
    hide Loose, AtTick, Outer, TickUp, RunFirst;
  }

  lemma RunLoose<T>(st: State<T>)
    requires Loose(st) && st.jobs != []
    ensures var p := RunFirst(Unbounded, st);
      Loose(p) && p == st.(now := st.jobs[0].start, jobs := st.jobs[1..]) && st.now <= p.now
  {
    var rest := st.jobs[1..];
    forall i | 0 <= i < |rest| ensures st.jobs[0].start <= rest[i].start { assert Ordered(st.jobs[0], st.jobs[i + 1]); }
  }

  lemma UpMonotone(ratio: int, offset: int, a: int, b: int)
    requires ratio > 0 && a <= b
    ensures TickUp(ratio, offset, a) <= TickUp(ratio, offset, b)
  {
    UpGalois(ratio, offset, b, TickUp(ratio, offset, b));
    UpGalois(ratio, offset, a, TickUp(ratio, offset, b));
  }

  /** Moving the child's clock up to its first job's start leaves no job in the past. */
  lemma LoosenChild<C, P>(l: Link<C, P>, now: int)
    requires Loose(l.child) && l.child.jobs != [] && now <= l.child.jobs[0].start
    ensures Loose(l.child.(now := now))
  {
    assert forall i :: 0 < i < |l.child.jobs| ==> Ordered(l.child.jobs[0], l.child.jobs[i]);
  }

  lemma ChildSyncKeeps<C, P>(l: Link<C, P>)
    requires Inv(l) && l.child.sync.waiting
    ensures Inv(Step(l, ChildSync))
  {
    SyncNeverPassesRequest(l);
    if l.child.jobs != [] { LoosenChild(l, SyncFrom(l)); } else { assert Loose(l.child.(now := SyncFrom(l))); }
    ArmedIs(l, l.child.sync.prev);
    ArmedIs(Step(l, ChildSync), l.child.sync.prev);
    hide Loose, AtTick, Outer, TickUp;
  }

  lemma ChildListKeeps<C, P>(l: Link<C, P>, op: Op<C, P>)
    requires Inv(l) && Legal(l, op) && (op.ChildDel? || op.ChildRun?)
    ensures Inv(Step(l, op))
  {
    if op.ChildDel? { DelLoose(l.child, op.job); }
    else { assert Loose(l.child.(jobs := l.child.jobs[1..])); }
    ArmedIs(l, l.child.sync.prev);
    ArmedIs(Step(l, op), l.child.sync.prev);
    hide Loose, AtTick, Outer, TickUp;
  }

  lemma StepKeeps<C, P>(l: Link<C, P>, op: Op<C, P>)
    requires Inv(l) && Legal(l, op)
    ensures Inv(Step(l, op))
  {
    match op
    case ChildAdd(_, _, _, _) => ChildAddKeeps(l, op);
    case ChildForward => ChildForwardKeeps(l);
    case ChildIdle => ChildIdleKeeps(l);
    case ParentAdd(job, start, priority, group) =>
      AddLoose(l.parent, Other(job), start, priority, group);
      ParentListKeeps(l, Add(Unbounded, l.parent, Other(job), start, priority, group));
    case ParentDel(job) =>
      DelLoose(l.parent, Other(job));
      ParentListKeeps(l, Del(l.parent, Other(job)));
    case ParentRun => ParentRunKeeps(l);
    case ChildSync => ChildSyncKeeps(l);
    case _ => ChildListKeeps(l, op);
  }

  function Execute<C(==), P(==)>(l: Link<C, P>, ops: seq<Op<C, P>>): (r: Link<C, P>)
    requires l.ratio > 0
    ensures r.ratio == l.ratio && r.offset == l.offset
    decreases |ops|
  {
    if ops == [] then l else Execute(Step(l, ops[0]), ops[1..])
  }

  ghost predicate LegalRun<C, P>(l: Link<C, P>, ops: seq<Op<C, P>>)
    requires l.ratio > 0
    decreases |ops|
  {
    ops == [] || (Legal(l, ops[0]) && LegalRun(Step(l, ops[0]), ops[1..]))
  }

  /**
   * Across any run: whenever the child waits, the time the link would sync to is not behind its own,
   * and, if it has a job or its request is still listed, not past the tick it requested, so neither
   * assertion of usfstl_sched_set_time fires; and whenever it does not wait, the parent stands
   * exactly at the child's time.
   */
  lemma {:induction false} LinkedRun<C, P>(l: Link<C, P>, ops: seq<Op<C, P>>)
    requires Inv(l) && LegalRun(l, ops)
    ensures var r := Execute(l, ops);
      && Inv(r)
      && (r.child.sync.waiting ==> r.child.now <= SyncFrom(r))
      && (r.child.sync.waiting && (r.child.jobs != [] || Listed(r.parent.jobs, LinkJob)) ==> SyncFrom(r) <= r.child.sync.prev)
      && (!r.child.sync.waiting ==> r.parent.now == Outer(r.ratio, r.offset, r.child.now))
    decreases |ops|
  {
    if ops == [] {
      if l.child.sync.waiting { SyncNeverPassesRequest(l); }
    } else {
      StepKeeps(l, ops[0]);
      LinkedRun(Step(l, ops[0]), ops[1..]);
    }
  }

  /**
   * Every wait that ends, ends with the child exactly at the tick it asked for last: the start of its
   * first job, if it has one.
   */
  lemma WaitEndsExactly<C, P>(l: Link<C, P>, ops: seq<Op<C, P>>)
    requires Inv(l) && LegalRun(l, ops)
    requires var r := Execute(l, ops); Legal(r, ParentRun) && r.parent.jobs[0].job.LinkJob?
    ensures var r := Execute(l, ops);
      && Step(r, ParentRun).child.now == r.child.sync.prev && !Step(r, ParentRun).child.sync.waiting
      && Step(r, ParentRun).parent.now == Outer(r.ratio, r.offset, r.child.sync.prev)
      && (r.child.jobs != [] ==> r.child.sync.prev == r.child.jobs[0].start)
  {
    LinkedRun(l, ops);
    ParentRunKeeps(Execute(l, ops));
  }

  /** usfstl_sched_link: the offset makes the two clocks agree, and a job already there is requested. */
  function MakeLink<C, P(==)>(child: State<C>, parent: State<ParentJob<P>>, ratio: int): Link<C, P> {
    var l := Link(child.(sync := child.sync.(external := true)), parent, ratio, parent.now - child.now * ratio);
    if child.jobs == [] then l else Relay(l, Request(Unbounded, l.child.sync, child.jobs[0].start).1)
  }

  lemma LinkStarts<C, P>(child: State<C>, parent: State<ParentJob<P>>, ratio: int)
    requires ratio > 0 && Loose(child) && Loose(parent) && !parent.sync.external && !Listed(parent.jobs, LinkJob)
    requires !child.sync.waiting && !child.sync.nextSet && !child.sync.prevSet
    ensures Inv(MakeLink(child, parent, ratio))
    ensures child.jobs != [] ==> Armed(MakeLink(child, parent, ratio), child.jobs[0].start)
    ensures MakeLink(child, parent, ratio).child == child.(sync := MakeLink(child, parent, ratio).child.sync)
  {
    var l: Link<C, P> := Link(child.(sync := child.sync.(external := true)), parent, ratio, parent.now - child.now * ratio);
    assert Inv(l);
    if child.jobs != [] {
      RelayArms(l, child.jobs[0].start);
      hide Loose, AtTick, LinkRequest;
    }
  }
}
