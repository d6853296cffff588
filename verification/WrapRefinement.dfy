/** The scheduler on its wrapping 64-bit clock does what it would do on unbounded time. */
module WrapRefinement {
  import opened Clock
  import opened Common
  import opened SchedState
  import opened SchedRuns

  function WrapItem<T>(x: Item<T>): Item<T> {
    x.(start := Wrap(x.start))
  }

  function WrapItems<T>(s: seq<Item<T>>): (r: seq<Item<T>>)
    ensures |r| == |s| && forall i :: 0 <= i < |s| ==> r[i] == WrapItem(s[i])
  {
    seq(|s|, i requires 0 <= i < |s| => WrapItem(s[i]))
  }

  function WrapRan<T>(s: seq<Ran<T>>): (r: seq<Ran<T>>)
    ensures |r| == |s| && forall i :: 0 <= i < |s| ==> r[i] == Ran(WrapItem(s[i].item), Wrap(s[i].time), s[i].adds)
  {
    seq(|s|, i requires 0 <= i < |s| => Ran(WrapItem(s[i].item), Wrap(s[i].time), s[i].adds))
  }

  /** Every start is at most 2^63 ahead of now. */
  ghost predicate Near<T>(now: int, s: seq<Item<T>>) {
    forall i :: 0 <= i < |s| ==> now <= s[i].start <= now + TWO63
  }

  ghost predicate DueNow<T>(now: int, s: seq<Item<T>>) {
    s != [] && s[0].start == now
  }

  lemma GoesBeforeFaithful<T>(now: int, x: Item<T>, y: Item<T>)
    requires now <= x.start <= now + TWO63 && now <= y.start <= now + TWO63
    ensures GoesBefore(Wrapping, WrapItem(x), WrapItem(y)) <==>
      GoesBefore(Unbounded, x, y) || (y.start == now && x.start == now + TWO63)
  {
    GapFaithful(y.start, x.start);
    WrapInjective(y.start, x.start);
  }

  lemma {:induction false} SlotFaithful<T>(now: int, s: seq<Item<T>>, x: Item<T>)
    requires Near(now, s) && now <= x.start <= now + TWO63
    requires x.start == now + TWO63 ==> forall i :: 0 <= i < |s| ==> s[i].start != now
    ensures Slot(Wrapping, WrapItems(s), WrapItem(x)) == Slot(Unbounded, s, x)
  {
    var k := Slot(Unbounded, s, x);
    forall i | 0 <= i < |s| ensures GoesBefore(Wrapping, WrapItem(x), WrapItem(s[i])) == GoesBefore(Unbounded, x, s[i]) {
      GoesBeforeFaithful(now, x, s[i]);
    }
    SlotIs(Wrapping, WrapItems(s), WrapItem(x), k);
  }

  /**
   * The insertion assertion admits starts up to exactly 2^63 ahead. The wrapping insertion agrees
   * with the unbounded one exactly when the new start is not 2^63 ahead of a first job due now.
   */
  lemma InsertFaithful<T>(now: int, s: seq<Item<T>>, x: Item<T>)
    requires Near(now, s) && Sorted(s) && now <= x.start <= now + TWO63
    ensures Insert(Wrapping, WrapItems(s), WrapItem(x)) == WrapItems(Insert(Unbounded, s, x))
      <==> !(x.start == now + TWO63 && DueNow(now, s))
  {
    if x.start == now + TWO63 && DueNow(now, s) {
      GoesBeforeFaithful(now, x, s[0]);
      SlotIs(Wrapping, WrapItems(s), WrapItem(x), 0);
      var k := Slot(Unbounded, s, x);
      assert k > 0;
      assert WrapItems(Insert(Unbounded, s, x))[0].start == Wrap(now);
      WrapInjective(now, x.start);
    } else {
      forall i | 0 <= i < |s| && x.start == now + TWO63 ensures s[i].start != now {
        assert i > 0 ==> Ordered(s[0], s[i]);
      }
      SlotFaithful(now, s, x);
    }
  }

  /** usfstl_sched_add_job's assertion, read on unbounded time. */
  lemma AssertionAdmits(now: int, start: u64)
    ensures NotEarlier(Wrapping, start, Wrap(now)) <==> Wrap(start - Wrap(now)) <= TWO63
  {
    if start != Wrap(now) {
      WrapOfWrapped(start - Wrap(now), 0);
      AddMultiple(Wrap(now) - start, 1);
    }
  }

  // ---------- runs ----------

  /** w is u read through 64-bit counters. */
  ghost predicate Related<T>(w: Trace<T>, u: Trace<T>) {
    && w.st == u.st.(now := Wrap(u.st.now), jobs := WrapItems(u.st.jobs), pending := WrapItems(u.st.pending))
    && w.ran == WrapRan(u.ran)
    && w.added == WrapItems(u.added) && w.deleted == WrapItems(u.deleted)
    && !u.st.sync.external
    && Near(u.st.now, u.st.jobs) && Sorted(u.st.jobs)
  }

  /** The unbounded time an add names: the first one from now on with the same 64-bit value. */
  function Lifted(now: int, start: int): int {
    now + Wrap(start - Wrap(now))
  }

  function LiftOp<T>(now: int, op: Op<T>): Op<T> {
    if op.AddJob? then op.(start := Lifted(now, op.start)) else op
  }

  function LiftOps<T(==)>(u: Trace<T>, ops: seq<Op<T>>): seq<Op<T>>
    decreases |ops|
  {
    if ops == [] then [] else
      var op := LiftOp(u.st.now, ops[0]);
      [op] + LiftOps(Step(Unbounded, u, op), ops[1..])
  }

  /** x's start is past and its counter shows that, or it is not past, at most 2^63 ahead, and not that far from a job due now. */
  ghost predicate Releasable<T>(now: int, s: seq<Item<T>>, x: Item<T>) {
    if x.start < now then Wrap(now - x.start) < TWO63
    else x.start <= now + TWO63 && !(x.start == now + TWO63 && DueNow(now, s))
  }

  /** Each of the jobs is releasable when its turn comes. */
  ghost predicate AllReleasable<T>(u: State<T>, todo: seq<Item<T>>)
    decreases |todo|
  {
    todo == [] || (
      && Releasable(u.now, u.jobs, todo[0])
      && AllReleasable(Place(Unbounded, u, Bump(Unbounded, u.now, todo[0])), todo[1..]))
  }

  /**
   * What the callers must respect beyond the program's own assertions: no add exactly 2^63 ahead
   * while a job is due now, and no release of a job whose past start the counter takes for the future.
   */
  ghost predicate Guarded<T>(u: Trace<T>, op: Op<T>) {
    match op
    case AddJob(job, start, _, group) =>
      && 0 <= start < TWO64
      && ((group in u.st.blocked && u.st.allowed != Some(job))
          || !(Lifted(u.st.now, start) == u.st.now + TWO63 && DueNow(u.st.now, u.st.jobs)))
    case Restore(groups, except) =>
      var st := u.st.(blocked := groups, allowed := except, pending := Pick(u.st.pending, groups, except, false));
      AllReleasable(st, Pick(u.st.pending, groups, except, true))
    case _ => true
  }

  ghost predicate GuardedRun<T>(u: Trace<T>, ops: seq<Op<T>>)
    decreases |ops|
  {
    ops == [] || (Guarded(u, ops[0]) && GuardedRun(Step(Unbounded, u, LiftOp(u.st.now, ops[0])), ops[1..]))
  }

  lemma {:induction false} WrapWithout<T>(s: seq<Item<T>>, job: T)
    ensures Without(WrapItems(s), job) == WrapItems(Without(s, job))
  {
    hide Wrap;
    if s != [] {
      WrapWithout(s[1..], job);
      assert WrapItems(s)[1..] == WrapItems(s[1..]);
    }
  }

  lemma {:induction false} WrapMatching<T>(s: seq<Item<T>>, job: T)
    ensures Matching(WrapItems(s), job) == WrapItems(Matching(s, job))
  {
    hide Wrap;
    if s != [] {
      WrapMatching(s[1..], job);
      assert WrapItems(s)[1..] == WrapItems(s[1..]);
    }
  }

  lemma {:induction false} WrapPick<T>(s: seq<Item<T>>, b: set<int>, a: Option<T>, want: bool)
    ensures Pick(WrapItems(s), b, a, want) == WrapItems(Pick(s, b, a, want))
  {
    if s != [] {
      WrapPick(s[1..], b, a, want);
      assert WrapItems(s)[1..] == WrapItems(s[1..]);
    }
  }

  lemma LiftedWraps(now: int, start: u64)
    ensures Wrap(Lifted(now, start)) == start && now <= Lifted(now, start) < now + TWO64
  {
    WrapSmall(start);
    WrapSmall(start - Wrap(now));
    hide Wrap;
    WrapOfWrapped(now, Wrap(start - Wrap(now)));
    WrapOfWrapped(start - Wrap(now), Wrap(now));
  }

  lemma WrapSmall(x: int)
    ensures 0 <= x < TWO64 ==> Wrap(x) == x
    ensures 0 <= Wrap(x) < TWO64
  {
  }

  lemma WrapConcat<T>(a: seq<Item<T>>, b: seq<Item<T>>)
    ensures WrapItems(a + b) == WrapItems(a) + WrapItems(b)
  {
  }

  lemma InsertNear<T>(now: int, s: seq<Item<T>>, x: Item<T>)
    requires Near(now, s) && now <= x.start <= now + TWO63
    ensures Near(now, Insert(Unbounded, s, x))
  {
  }

  lemma AddFaithful<T>(w: Trace<T>, u: Trace<T>, op: Op<T>)
    requires Related(w, u) && op.AddJob? && Legal(Wrapping, w, op) && Guarded(u, op)
    ensures Related(Step(Wrapping, w, op), Step(Unbounded, u, LiftOp(u.st.now, op)))
    ensures Legal(Unbounded, u, LiftOp(u.st.now, op))
  {
    var lop := LiftOp(u.st.now, op);
    var x := Item(op.job, u.st.adds, lop.start, op.priority, op.group);
    LiftedWraps(u.st.now, op.start);
    AssertionAdmits(u.st.now, op.start);
    WrapConcat(u.added, [x]);
    assert WrapItems([x]) == [WrapItem(x)];
    ListedFaithful(u.st.jobs, op.job);
    ListedFaithful(u.st.pending, op.job);
    if MayRun(u.st.blocked, u.st.allowed, x) {
      InsertFaithful(u.st.now, u.st.jobs, x);
      SchedRuns.InsertSorted(u.st.jobs, x);
      InsertNear(u.st.now, u.st.jobs, x);
    } else {
      var held := x.(start := 0);
      WrapConcat(u.st.pending, [held]);
      assert WrapItems([held]) == [held];
    }
    hide Insert, Wrap, Near, Sorted, Listed, WrapItems;
  }

  lemma ListedFaithful<T>(s: seq<Item<T>>, job: T)
    ensures Listed(WrapItems(s), job) <==> Listed(s, job)
  {
    if Listed(s, job) {
      var i :| 0 <= i < |s| && s[i].job == job;
      assert WrapItems(s)[i].job == job;
    }
    if Listed(WrapItems(s), job) {
      var i :| 0 <= i < |s| && WrapItems(s)[i].job == job;
      assert s[i].job == job;
    }
  }

  lemma DelFaithful<T>(w: Trace<T>, u: Trace<T>, job: T)
    requires Related(w, u)
    ensures Related(Step(Wrapping, w, DelJob(job)), Step(Unbounded, u, DelJob(job)))
  {
    WrapWithout(u.st.jobs, job);
    WrapWithout(u.st.pending, job);
    WrapMatching(u.st.jobs, job);
    WrapMatching(u.st.pending, job);
    WrapConcat(u.deleted, Matching(u.st.jobs, job));
    WrapConcat(u.deleted + Matching(u.st.jobs, job), Matching(u.st.pending, job));
    WithoutIn(u.st.jobs, job);
    NearSub(u.st.now, u.st.jobs, Without(u.st.jobs, job));
    hide Near, Sorted, WrapItems;
  }

  lemma NearSub<T>(now: int, s: seq<Item<T>>, r: seq<Item<T>>)
    requires Near(now, s) && forall x :: x in r ==> x in s
    ensures Near(now, r)
  {
    forall i | 0 <= i < |r| ensures now <= r[i].start <= now + TWO63 { assert r[i] in s; }
  }

  lemma RunFaithful<T>(w: Trace<T>, u: Trace<T>)
    requires Related(w, u) && Legal(Wrapping, w, RunNext)
    ensures Related(Step(Wrapping, w, RunNext), Step(Unbounded, u, RunNext))
    ensures Legal(Unbounded, u, RunNext)
  {
    var x, rest := u.st.jobs[0], u.st.jobs[1..];
    LaterFaithful(x.start, u.st.now);
    assert Forwarded(Wrapping, w.st) == Wrap(x.start) && Forwarded(Unbounded, u.st) == x.start;
    assert WrapItems(u.st.jobs)[1..] == WrapItems(rest);
    assert WrapRan(u.ran + [Ran(x, x.start, u.st.adds)]) == WrapRan(u.ran) + [Ran(WrapItem(x), Wrap(x.start), u.st.adds)];
    forall i | 0 <= i < |rest| ensures x.start <= rest[i].start <= x.start + TWO63 { assert Ordered(u.st.jobs[0], u.st.jobs[i + 1]); }
    hide WrapItems, WrapRan, Wrap, Forwarded;
  }

  lemma SweepFaithful<T>(u: State<T>, w: State<T>)
    requires w == u.(now := Wrap(u.now), jobs := WrapItems(u.jobs), pending := WrapItems(u.pending))
    requires Near(u.now, u.jobs) && Sorted(u.jobs)
    ensures Sweep(w) == Sweep(u).(now := Wrap(u.now), jobs := WrapItems(Sweep(u).jobs), pending := WrapItems(Sweep(u).pending))
    ensures Near(u.now, Sweep(u).jobs) && Sorted(Sweep(u).jobs)
  {
    WrapPick(u.jobs, u.blocked, u.allowed, true);
    WrapPick(u.jobs, u.blocked, u.allowed, false);
    WrapConcat(u.pending, Pick(u.jobs, u.blocked, u.allowed, false));
    PickSorted(u.jobs, u.blocked, u.allowed, true);
    PickAll(u.jobs, u.blocked, u.allowed, true);
    NearSub(u.now, u.jobs, Pick(u.jobs, u.blocked, u.allowed, true));
    hide Near, Sorted, WrapItems, Pick, Wrap;
  }

  /**
   * A release treats a held job as on unbounded time exactly when the counter shows its start as past
   * just while it is, or as equal to now. One held until its start is 2^63 or more past keeps that
   * start, which the counter takes for the future, until it comes around.
   */
  lemma BumpFaithfulExactly<T>(now: int, x: Item<T>)
    ensures Bump(Wrapping, Wrap(now), WrapItem(x)) == WrapItem(Bump(Unbounded, now, x)) <==>
      Wrap(now - x.start) == 0 || (Wrap(now - x.start) < TWO63 <==> x.start < now)
    ensures Wrap(now - x.start) >= TWO63 ==> Bump(Wrapping, Wrap(now), WrapItem(x)) == WrapItem(x)
  {
    var d := now - x.start;
    WrapOfWrapped(now, x.start);
    WrapOfWrapped(d, x.start);
    WrapSmall(now);
    assert Gap(Wrapping, WrapItem(x).start, Wrap(now)) == if Wrap(d) < TWO63 then Wrap(d) else Wrap(d) - TWO64;
    assert Wrap(now) == Wrap(x.start) <==> Wrap(d) == 0 by {
      WrapSmall(x.start);
      if Wrap(now) == Wrap(x.start) { assert Wrap(d) == Wrap(0); }
    }
    hide Wrap;
  }

  lemma BumpReleasable<T>(now: int, s: seq<Item<T>>, x: Item<T>)
    requires Releasable(now, s, x)
    ensures Bump(Wrapping, Wrap(now), WrapItem(x)) == WrapItem(Bump(Unbounded, now, x))
    ensures now <= Bump(Unbounded, now, x).start <= now + TWO63
    ensures Bump(Unbounded, now, x).start == now + TWO63 ==> !DueNow(now, s)
  {
    var d := now - x.start;
    if d < 0 {
      AddMultiple(d, 1);
      WrapSmall(d + TWO64);
    } else if d == 0 {
      WrapSmall(d);
    }
    hide Wrap;
    BumpFaithfulExactly(now, x);
  }

  lemma {:induction false} ReadmitFaithful<T>(u: State<T>, w: State<T>, todo: seq<Item<T>>)
    requires w == u.(now := Wrap(u.now), jobs := WrapItems(u.jobs), pending := WrapItems(u.pending))
    requires Near(u.now, u.jobs) && Sorted(u.jobs) && !u.sync.external
    requires AllReleasable(u, todo)
    requires forall i :: 0 <= i < |todo| ==> MayRun(u.blocked, u.allowed, todo[i])
    ensures var r := Readmit(Unbounded, u, todo);
      && Readmit(Wrapping, w, WrapItems(todo)) == r.(now := Wrap(u.now), jobs := WrapItems(r.jobs), pending := WrapItems(u.pending))
      && r.pending == u.pending && r.now == u.now && Near(u.now, r.jobs) && Sorted(r.jobs) && r.sync == u.sync
    decreases |todo|
  {
    if todo != [] {
      var x := Bump(Unbounded, u.now, todo[0]);
      BumpReleasable(u.now, u.jobs, todo[0]);
      InsertFaithful(u.now, u.jobs, x);
      SchedRuns.InsertSorted(u.jobs, x);
      InsertNear(u.now, u.jobs, x);
      assert WrapItems(todo)[1..] == WrapItems(todo[1..]);
      hide Near, Sorted, Wrap, Insert;
      ReadmitFaithful(Place(Unbounded, u, x), Place(Wrapping, w, WrapItem(x)), todo[1..]);
    }
  }

  lemma GroupsFaithful<T>(w: Trace<T>, u: Trace<T>, op: Op<T>)
    requires Related(w, u) && (op.Block? || op.Restore?) && Guarded(u, op)
    ensures Related(Step(Wrapping, w, op), Step(Unbounded, u, op))
  {
    match op
    case Block(groups, except) =>
      SweepFaithful(u.st.(blocked := u.st.blocked + groups, allowed := except), w.st.(blocked := w.st.blocked + groups, allowed := except));
      hide Near, Sorted, Wrap, WrapItems, Pick;
    case Restore(groups, except) =>
      var u0, w0 := u.st.(blocked := groups, allowed := except), w.st.(blocked := groups, allowed := except);
      var todo, kept := Pick(u.st.pending, groups, except, true), Pick(u.st.pending, groups, except, false);
      WrapPick(u.st.pending, groups, except, true);
      WrapPick(u.st.pending, groups, except, false);
      PickAll(u.st.pending, groups, except, true);
      ReadmitFaithful(u0.(pending := kept), w0.(pending := WrapItems(kept)), todo);
      hide Near, Sorted, Wrap, WrapItems, Pick, Readmit;
      SweepFaithful(Release(Unbounded, u0), Release(Wrapping, w0));
  }

  lemma StepFaithful<T>(w: Trace<T>, u: Trace<T>, op: Op<T>)
    requires Related(w, u) && Legal(Wrapping, w, op) && Guarded(u, op)
    ensures Related(Step(Wrapping, w, op), Step(Unbounded, u, LiftOp(u.st.now, op)))
    ensures Legal(Unbounded, u, LiftOp(u.st.now, op))
  {
    match op
    case AddJob(_, _, _, _) => AddFaithful(w, u, op);
    case DelJob(job) => DelFaithful(w, u, job);
    case RunNext => RunFaithful(w, u);
    case _ => GroupsFaithful(w, u, op);
  }

  /**
   * Any legal run on 64-bit counters, through any number of wraps, is the 64-bit reading of a legal
   * run on unbounded time: same jobs, same order, same callbacks.
   */
  lemma {:induction false} WrapsAreInvisible<T>(w: Trace<T>, u: Trace<T>, ops: seq<Op<T>>)
    requires Related(w, u) && LegalRun(Wrapping, w, ops) && GuardedRun(u, ops)
    ensures Related(Execute(Wrapping, w, ops), Execute(Unbounded, u, LiftOps(u, ops)))
    ensures LegalRun(Unbounded, u, LiftOps(u, ops))
    decreases |ops|
  {
    if ops != [] {
      var op := LiftOp(u.st.now, ops[0]);
      var v := Step(Unbounded, u, op);
      StepFaithful(w, u, ops[0]);
      WrapsAreInvisible(Step(Wrapping, w, ops[0]), v, ops[1..]);
      assert LiftOps(u, ops)[1..] == LiftOps(v, ops[1..]) && LiftOps(u, ops)[0] == op;
    }
  }

  /** So from any initial counter value the program's runs have every whole-run property. */
  lemma WrappedRunsAreGood<T>(now: int, ops: seq<Op<T>>)
    requires LegalRun(Wrapping, Start<T>(Wrap(now)), ops) && GuardedRun(Start<T>(now), ops)
    ensures var u := Execute(Unbounded, Start<T>(now), LiftOps(Start<T>(now), ops));
      Related(Execute(Wrapping, Start<T>(Wrap(now)), ops), u) && Invariant(u)
  {
    StartIsGood<T>(now);
    assert WrapItems<T>([]) == [] && WrapRan<T>([]) == [];
    WrapsAreInvisible(Start<T>(Wrap(now)), Start<T>(now), ops);
    WholeRun(Start<T>(now), LiftOps(Start<T>(now), ops));
  }

  /**
   * A job added while its group is blocked has its start overwritten with 0. A release moves that to
   * now exactly while the counter is in its lower half. In the upper half the job stays at 0, which
   * is then in the future.
   */
  lemma ClearedStartReleasesNow<T>(now: u64, x: Item<T>)
    ensures Bump(Wrapping, now, x.(start := 0)).start == now <==> now < TWO63
  {
  }
}
