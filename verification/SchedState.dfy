/** The scheduler's state as a value, and what each operation of sched.c makes of it. */
module SchedState {
  import opened Clock
  import opened Common

  /**
   * A listed job: which job it is, the serial number of the call that added it, and
   * the fields the scheduler looks at.
   */
  datatype Item<+T> = Item(job: T, serial: nat, start: int, priority: int, group: int)

  /** The integration with an external scheduler; `requests` records the calls made to its request hook. */
  datatype Sync = Sync(external: bool, waiting: bool,
                       nextSet: bool, next: int,
                       prevSet: bool, prev: int,
                       requests: seq<int>)

  datatype State<+T> = State(now: int, jobs: seq<Item<T>>, pending: seq<Item<T>>,
                             blocked: set<int>, allowed: Option<T>,
                             adds: nat, sync: Sync)

  // ---------- the sorted list ----------

  /** The insertion loop stops in front of y. */
  predicate GoesBefore<T>(c: Clock, x: Item<T>, y: Item<T>) {
    Later(c, y.start, x.start) || (y.start == x.start && y.priority < x.priority)
  }

  function Slot<T>(c: Clock, s: seq<Item<T>>, x: Item<T>): (k: nat)
    ensures k <= |s|
    ensures forall i :: 0 <= i < k ==> !GoesBefore(c, x, s[i])
    ensures k < |s| ==> GoesBefore(c, x, s[k])
  {
    if s == [] || GoesBefore(c, x, s[0]) then 0 else 1 + Slot(c, s[1..], x)
  }

  function Insert<T>(c: Clock, s: seq<Item<T>>, x: Item<T>): seq<Item<T>> {
    var k := Slot(c, s, x);
    s[..k] + [x] + s[k..]
  }

  function Without<T(==)>(s: seq<Item<T>>, job: T): seq<Item<T>> {
    if s == [] then []
    else if s[0].job == job then Without(s[1..], job)
    else [s[0]] + Without(s[1..], job)
  }

  // ---------- external requests ----------

  /** usfstl_sched_external_request: whether the caller must wait, and the integration state afterwards. */
  function Request(c: Clock, y: Sync, time: int): (bool, Sync) {
    if !y.external then (false, y)
    else if !y.waiting && y.nextSet && Earlier(c, time, y.next) then (false, y)
    else if y.prevSet && time == y.prev then (true, y)
    else (true, y.(prev := time, prevSet := true, requests := y.requests + [time]))
  }

  // ---------- adding and deleting ----------

  predicate MayRun<T(==)>(blocked: set<int>, allowed: Option<T>, x: Item<T>) {
    x.group !in blocked || allowed == Some(x.job)
  }

  /** Listing x: on hold with its start cleared while its group is blocked, otherwise in order, with a request. */
  function Place<T(==)>(c: Clock, st: State<T>, x: Item<T>): State<T> {
    if !MayRun(st.blocked, st.allowed, x) then
      st.(pending := st.pending + [x.(start := 0)])
    else
      st.(jobs := Insert(c, st.jobs, x), sync := Request(c, st.sync, x.start).1)
  }

  function Add<T(==)>(c: Clock, st: State<T>, job: T, start: int, priority: int, group: int): State<T> {
    Place(c, st.(adds := st.adds + 1), Item(job, st.adds, start, priority, group))
  }

  function Del<T(==)>(st: State<T>, job: T): State<T> {
    st.(jobs := Without(st.jobs, job), pending := Without(st.pending, job))
  }

  ghost predicate Listed<T>(s: seq<Item<T>>, job: T) {
    exists i :: 0 <= i < |s| && s[i].job == job
  }

  // ---------- running ----------

  /** The time at which the first job runs without an external scheduler. */
  function Forwarded<T>(c: Clock, st: State<T>): int
    requires st.jobs != []
  {
    if Later(c, st.jobs[0].start, st.now) then st.jobs[0].start else st.now
  }

  function RunFirst<T>(c: Clock, st: State<T>): State<T>
    requires st.jobs != []
  {
    st.(now := Forwarded(c, st), jobs := st.jobs[1..])
  }

  // ---------- blocking and restoring groups ----------

  /** The items of s that may (or, for want == false, may not) run, in order. */
  function Pick<T(==)>(s: seq<Item<T>>, blocked: set<int>, allowed: Option<T>, want: bool): seq<Item<T>> {
    if s == [] then []
    else if MayRun(blocked, allowed, s[0]) == want then [s[0]] + Pick(s[1..], blocked, allowed, want)
    else Pick(s[1..], blocked, allowed, want)
  }

  /** usfstl_sched_remove_blocked_jobs */
  function Sweep<T(==)>(st: State<T>): State<T> {
    st.(jobs := Pick(st.jobs, st.blocked, st.allowed, true),
        pending := st.pending + Pick(st.jobs, st.blocked, st.allowed, false))
  }

  /** The state after the sweep has looked at the first i jobs. */
  ghost function Swept<T>(st: State<T>, i: nat): State<T>
    requires i <= |st.jobs|
  {
    st.(jobs := Pick(st.jobs[..i], st.blocked, st.allowed, true) + st.jobs[i..],
        pending := st.pending + Pick(st.jobs[..i], st.blocked, st.allowed, false))
  }

  /** Where the i-th job is when the sweep reaches it. */
  ghost function SweepIndex<T>(st: State<T>, i: nat): nat
    requires i <= |st.jobs|
  {
    |Pick(st.jobs[..i], st.blocked, st.allowed, true)|
  }

  /** usfstl_sched_block_job on the k-th job */
  function BlockAt<T>(st: State<T>, k: nat): State<T>
    requires k < |st.jobs|
  {
    st.(jobs := st.jobs[..k] + st.jobs[k + 1..], pending := st.pending + [st.jobs[k]])
  }

  /** A restored job does not start in the past. */
  function Bump<T>(c: Clock, now: int, x: Item<T>): Item<T> {
    if Earlier(c, x.start, now) then x.(start := now) else x
  }

  function Readmit<T(==)>(c: Clock, st: State<T>, todo: seq<Item<T>>): State<T>
    decreases |todo|
  {
    if todo == [] then st
    else Readmit(c, Place(c, st, Bump(c, st.now, todo[0])), todo[1..])
  }

  /** usfstl_sched_restore_blocked_jobs */
  function Release<T(==)>(c: Clock, st: State<T>): State<T> {
    Readmit(c, st.(pending := Pick(st.pending, st.blocked, st.allowed, false)),
            Pick(st.pending, st.blocked, st.allowed, true))
  }

  /** The state after the release has looked at the first i pending jobs. */
  ghost function Released<T>(c: Clock, st: State<T>, i: nat): State<T>
    requires i <= |st.pending|
  {
    Readmit(c, st.(pending := []), Pick(st.pending[..i], st.blocked, st.allowed, true))
      .(pending := Pick(st.pending[..i], st.blocked, st.allowed, false) + st.pending[i..])
  }

  /** Where the i-th pending job is when the release reaches it. */
  ghost function ReleaseIndex<T>(st: State<T>, i: nat): nat
    requires i <= |st.pending|
  {
    |Pick(st.pending[..i], st.blocked, st.allowed, false)|
  }

  /** usfstl_sched_restore_job on the k-th pending job */
  function RestoreAt<T(==)>(c: Clock, st: State<T>, k: nat): State<T>
    requires k < |st.pending|
  {
    Place(c, st.(pending := st.pending[..k] + st.pending[k + 1..]), Bump(c, st.now, st.pending[k]))
  }

  function BlockGroups<T(==)>(st: State<T>, groups: set<int>, job: Option<T>): State<T> {
    Sweep(st.(blocked := st.blocked + groups, allowed := job))
  }

  function RestoreGroups<T(==)>(c: Clock, st: State<T>, groups: set<int>, job: Option<T>): State<T> {
    Sweep(Release(c, st.(blocked := groups, allowed := job)))
  }

  // ---------- small facts ----------

  lemma SlotIs<T>(c: Clock, s: seq<Item<T>>, x: Item<T>, k: nat)
    requires k <= |s|
    requires forall i :: 0 <= i < k ==> !GoesBefore(c, x, s[i])
    requires k < |s| ==> GoesBefore(c, x, s[k])
    ensures Slot(c, s, x) == k
  {
    var m := Slot(c, s, x);
    assert !(m < k || k < m);
  }

  /**
   * What adding a job comes to: while its group is blocked and it is not the job allowed, it goes to the
   * end of the other list with its start cleared; otherwise it is listed behind all jobs up to the first
   * that starts later, or starts equally and has lower priority.
   */
  lemma AddExactly<T>(c: Clock, st: State<T>, job: T, start: int, priority: int, group: int)
    ensures var r, x := Add(c, st, job, start, priority, group), Item(job, st.adds, start, priority, group);
      && r == st.(adds := st.adds + 1, jobs := r.jobs, pending := r.pending, sync := r.sync)
      && if group in st.blocked && st.allowed != Some(job) then
           r.jobs == st.jobs && r.pending == st.pending + [Item(job, st.adds, 0, priority, group)] && r.sync == st.sync
         else
           var k := Slot(c, st.jobs, x);
           && r.pending == st.pending && r.jobs == st.jobs[..k] + [x] + st.jobs[k..]
           && (forall i :: 0 <= i < k ==>
                !Later(c, st.jobs[i].start, start) && !(st.jobs[i].start == start && st.jobs[i].priority < priority))
           && (k < |st.jobs| ==>
                Later(c, st.jobs[k].start, start) || (st.jobs[k].start == start && st.jobs[k].priority < priority))
  {
    hide Request;
  }

  lemma InsertCons<T>(c: Clock, s: seq<Item<T>>, x: Item<T>)
    ensures Insert(c, [], x) == [x]
    ensures s != [] ==> Insert(c, s, x) == if GoesBefore(c, x, s[0]) then [x] + s else [s[0]] + Insert(c, s[1..], x)
  {
    if s != [] {
      hide GoesBefore;
      var k := Slot(c, s[1..], x);
      assert s[..k + 1] == [s[0]] + s[1..][..k] && s[k + 1..] == s[1..][k..];
    }
  }

  lemma {:induction false} WithoutConcat<T>(a: seq<Item<T>>, b: seq<Item<T>>, job: T)
    ensures Without(a + b, job) == Without(a, job) + Without(b, job)
  {
    if a == [] {
      assert a + b == b;
    } else {
      assert (a + b)[1..] == a[1..] + b;
      WithoutConcat(a[1..], b, job);
    }
  }

  lemma {:induction false} WithoutAbsent<T>(s: seq<Item<T>>, job: T)
    requires !Listed(s, job)
    ensures Without(s, job) == s
  {
    if s != [] {
      assert s[0].job != job;
      forall i | 0 <= i < |s[1..]| ensures s[1..][i].job != job { assert s[i + 1].job != job; }
      WithoutAbsent(s[1..], job);
    }
  }

  lemma {:induction false} WithoutMembers<T>(s: seq<Item<T>>, job: T)
    ensures forall x :: x in Without(s, job) <==> x in s && x.job != job
  {
    if s != [] {
      WithoutMembers(s[1..], job);
      assert s == [s[0]] + s[1..];
    }
  }

  lemma {:induction false} WithoutAt<T>(s: seq<Item<T>>, k: nat)
    requires k < |s|
    requires forall i :: 0 <= i < |s| && i != k ==> s[i].job != s[k].job
    ensures Without(s, s[k].job) == s[..k] + s[k + 1..]
  {
    if k == 0 {
      WithoutAbsent(s[1..], s[0].job);
    } else {
      WithoutAt(s[1..], k - 1);
      assert s[..k] == [s[0]] + s[1..][..k - 1];
      assert s[1..][k..] == s[k + 1..];
    }
  }

  lemma {:induction false} PickConcat<T>(a: seq<Item<T>>, b: seq<Item<T>>, blocked: set<int>, allowed: Option<T>, want: bool)
    ensures Pick(a + b, blocked, allowed, want) == Pick(a, blocked, allowed, want) + Pick(b, blocked, allowed, want)
  {
    if a == [] {
      assert a + b == b;
    } else {
      assert (a + b)[1..] == a[1..] + b;
      PickConcat(a[1..], b, blocked, allowed, want);
    }
  }

  lemma PickStep<T>(s: seq<Item<T>>, i: nat, blocked: set<int>, allowed: Option<T>, want: bool)
    requires i < |s|
    ensures Pick(s[..i + 1], blocked, allowed, want) ==
      Pick(s[..i], blocked, allowed, want) + if MayRun(blocked, allowed, s[i]) == want then [s[i]] else []
  {
    assert s[..i + 1] == s[..i] + [s[i]];
    PickConcat(s[..i], [s[i]], blocked, allowed, want);
    assert [s[i]][1..] == [];
  }

  lemma SweptStep<T>(st: State<T>, i: nat)
    requires i < |st.jobs|
    ensures var k := SweepIndex(st, i);
      && Swept(st, i).blocked == st.blocked && Swept(st, i).allowed == st.allowed
      && k < |Swept(st, i).jobs| && Swept(st, i).jobs[k] == st.jobs[i]
      && (MayRun(st.blocked, st.allowed, st.jobs[i]) ==> Swept(st, i + 1) == Swept(st, i) && SweepIndex(st, i + 1) == k + 1)
      && (!MayRun(st.blocked, st.allowed, st.jobs[i]) ==> Swept(st, i + 1) == BlockAt(Swept(st, i), k) && SweepIndex(st, i + 1) == k)
  {
    PickStep(st.jobs, i, st.blocked, st.allowed, true);
    PickStep(st.jobs, i, st.blocked, st.allowed, false);
    assert st.jobs[i..] == [st.jobs[i]] + st.jobs[i + 1..];
  }

  lemma SweptRest<T>(st: State<T>, i: nat)
    requires i <= |st.jobs|
    ensures |Swept(st, i).jobs| == SweepIndex(st, i) + |st.jobs| - i
    ensures Swept(st, i).jobs[SweepIndex(st, i)..] == st.jobs[i..]
  {
  }

  lemma SweptEnds<T>(st: State<T>)
    ensures Swept(st, 0) == st && Swept(st, |st.jobs|) == Sweep(st)
    ensures SweepIndex(st, 0) == 0
  {
    assert st.jobs[..|st.jobs|] == st.jobs;
  }

  lemma {:induction false} ReadmitSnoc<T>(c: Clock, st: State<T>, todo: seq<Item<T>>, x: Item<T>)
    ensures Readmit(c, st, todo + [x]) == Place(c, Readmit(c, st, todo), Bump(c, st.now, x))
    decreases |todo|
  {
    if todo == [] {
      assert Readmit(c, Place(c, st, Bump(c, st.now, x)), [x][1..]) == Place(c, st, Bump(c, st.now, x));
    } else {
      assert (todo + [x])[1..] == todo[1..] + [x];
      ReadmitSnoc(c, Place(c, st, Bump(c, st.now, todo[0])), todo[1..], x);
    }
  }

  /** Readmitting jobs that may run changes only the job list and the requests. */
  lemma {:induction false} ReadmitKeeps<T>(c: Clock, st: State<T>, todo: seq<Item<T>>)
    requires forall i :: 0 <= i < |todo| ==> MayRun(st.blocked, st.allowed, todo[i])
    ensures var r := Readmit(c, st, todo);
      r == st.(jobs := r.jobs, sync := r.sync)
    decreases |todo|
  {
    if todo != [] {
      ReadmitKeeps(c, Place(c, st, Bump(c, st.now, todo[0])), todo[1..]);
    }
  }

  lemma ReleasedStep<T>(c: Clock, st: State<T>, i: nat)
    requires i < |st.pending|
    ensures var k, r := ReleaseIndex(st, i), Released(c, st, i);
      && r.blocked == st.blocked && r.allowed == st.allowed && r.now == st.now
      && k < |r.pending| && r.pending[k] == st.pending[i]
      && (!MayRun(st.blocked, st.allowed, st.pending[i]) ==> Released(c, st, i + 1) == r && ReleaseIndex(st, i + 1) == k + 1)
      && (MayRun(st.blocked, st.allowed, st.pending[i]) ==> Released(c, st, i + 1) == RestoreAt(c, r, k) && ReleaseIndex(st, i + 1) == k)
  {
    hide Pick;
    var todo, x, r0 := Pick(st.pending[..i], st.blocked, st.allowed, true), st.pending[i], st.(pending := []);
    PickStep(st.pending, i, st.blocked, st.allowed, true);
    PickStep(st.pending, i, st.blocked, st.allowed, false);
    PickAll(st.pending[..i], st.blocked, st.allowed, true);
    ReadmitKeeps(c, r0, todo);
    var rest := Pick(st.pending[..i], st.blocked, st.allowed, false);
    SplitAround(rest, st.pending, i);
    if MayRun(st.blocked, st.allowed, x) {
      ReadmitSnoc(c, r0, todo, x);
      PlaceFrame(c, Readmit(c, r0, todo), Bump(c, st.now, x), rest + st.pending[i + 1..]);
      hide Place, Bump, Readmit, MayRun;
    } else {
      hide Place, Bump, Readmit, MayRun;
      assert todo + [] == todo;
    }
  }

  lemma SplitAround<T>(rest: seq<Item<T>>, s: seq<Item<T>>, i: nat)
    requires i < |s|
    ensures var r := rest + s[i..];
      && r[|rest|] == s[i] && r[..|rest|] == rest && r[|rest| + 1..] == s[i + 1..]
      && (rest + [s[i]]) + s[i + 1..] == r && rest + [] == rest
  {
  }

  /** Placing a job that may run neither looks at nor changes the pending list. */
  lemma PlaceFrame<T>(c: Clock, st: State<T>, x: Item<T>, pending: seq<Item<T>>)
    requires MayRun(st.blocked, st.allowed, x)
    ensures Place(c, st.(pending := pending), x) == Place(c, st, x).(pending := pending)
  {
  }

  lemma ReleasedRest<T>(c: Clock, st: State<T>, i: nat)
    requires i <= |st.pending|
    ensures |Released(c, st, i).pending| == ReleaseIndex(st, i) + |st.pending| - i
    ensures Released(c, st, i).pending[ReleaseIndex(st, i)..] == st.pending[i..]
  {
  }

  lemma {:induction false} ReadmitFrame<T>(c: Clock, st: State<T>, pending: seq<Item<T>>, todo: seq<Item<T>>)
    requires forall i :: 0 <= i < |todo| ==> MayRun(st.blocked, st.allowed, todo[i])
    ensures Readmit(c, st.(pending := pending), todo) == Readmit(c, st, todo).(pending := pending)
    decreases |todo|
  {
    if todo != [] {
      var x := Bump(c, st.now, todo[0]);
      assert Place(c, st.(pending := pending), x) == Place(c, st, x).(pending := pending);
      ReadmitFrame(c, Place(c, st, x), pending, todo[1..]);
    }
  }

  lemma ReleasedEnds<T>(c: Clock, st: State<T>)
    ensures Released(c, st, 0) == st && Released(c, st, |st.pending|) == Release(c, st)
    ensures ReleaseIndex(st, 0) == 0
  {
    assert st.pending[..|st.pending|] == st.pending;
    PickAll(st.pending, st.blocked, st.allowed, true);
    ReadmitFrame(c, st.(pending := []), Pick(st.pending, st.blocked, st.allowed, false), Pick(st.pending, st.blocked, st.allowed, true));
  }

  lemma {:induction false} PickAll<T>(s: seq<Item<T>>, blocked: set<int>, allowed: Option<T>, want: bool)
    ensures forall i :: 0 <= i < |Pick(s, blocked, allowed, want)| ==>
      MayRun(blocked, allowed, Pick(s, blocked, allowed, want)[i]) == want && Pick(s, blocked, allowed, want)[i] in s
  {
    if s != [] { PickAll(s[1..], blocked, allowed, want); }
  }
}
