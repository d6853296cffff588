/** Whole runs of a scheduler that nothing external drives: what every sequence of calls keeps. */
module SchedRuns {
  import opened Clock
  import opened Common
  import opened SchedState

  datatype Op<+T> =
    | AddJob(job: T, start: int, priority: int, group: int)
    | DelJob(job: T)
    | RunNext
    | Block(groups: set<int>, except: Option<T>)
    | Restore(groups: set<int>, except: Option<T>)

  /** A callback: the job as it was listed, the time it ran at, and how many adds had happened. */
  datatype Ran<+T> = Ran(item: Item<T>, time: int, adds: nat)

  /** A state together with its history. */
  datatype Trace<+T> = Trace(st: State<T>, added: seq<Item<T>>, ran: seq<Ran<T>>, deleted: seq<Item<T>>)

  function Start<T>(now: int): Trace<T> {
    Trace(State(now, [], [], {}, None, 0, Sync(false, false, false, 0, false, 0, [])), [], [], [])
  }

  /** What the program's assertions demand of a call. */
  ghost predicate Legal<T>(c: Clock, t: Trace<T>, op: Op<T>) {
    match op
    case AddJob(job, start, _, _) =>
      NotEarlier(c, start, t.st.now) && !Listed(t.st.jobs, job) && !Listed(t.st.pending, job)
    case RunNext => t.st.jobs != []
    case _ => true
  }

  function Matching<T(==)>(s: seq<Item<T>>, job: T): seq<Item<T>> {
    if s == [] then []
    else if s[0].job == job then [s[0]] + Matching(s[1..], job)
    else Matching(s[1..], job)
  }

  function Step<T(==)>(c: Clock, t: Trace<T>, op: Op<T>): Trace<T> {
    match op
    case AddJob(job, start, priority, group) =>
      t.(st := Add(c, t.st, job, start, priority, group),
         added := t.added + [Item(job, t.st.adds, start, priority, group)])
    case DelJob(job) =>
      t.(st := Del(t.st, job),
         deleted := t.deleted + Matching(t.st.jobs, job) + Matching(t.st.pending, job))
    case RunNext =>
      if t.st.jobs == [] then t
      else t.(st := RunFirst(c, t.st), ran := t.ran + [Ran(t.st.jobs[0], Forwarded(c, t.st), t.st.adds)])
    case Block(groups, except) => t.(st := BlockGroups(t.st, groups, except))
    case Restore(groups, except) => t.(st := RestoreGroups(c, t.st, groups, except))
  }

  function Execute<T(==)>(c: Clock, t: Trace<T>, ops: seq<Op<T>>): Trace<T>
    decreases |ops|
  {
    if ops == [] then t else Execute(c, Step(c, t, ops[0]), ops[1..])
  }

  ghost predicate LegalRun<T>(c: Clock, t: Trace<T>, ops: seq<Op<T>>)
    decreases |ops|
  {
    ops == [] || (Legal(c, t, ops[0]) && LegalRun(c, Step(c, t, ops[0]), ops[1..]))
  }

  // ---------- order ----------

  /** x's turn is no later than y's: earlier start, or the same start and no lower priority. */
  predicate Ordered<T>(x: Item<T>, y: Item<T>) {
    x.start < y.start || (x.start == y.start && x.priority >= y.priority)
  }

  ghost predicate Sorted<T>(s: seq<Item<T>>) {
    forall i, j :: 0 <= i < j < |s| ==> Ordered(s[i], s[j])
  }

  lemma InsertSorted<T>(s: seq<Item<T>>, x: Item<T>)
    requires Sorted(s)
    ensures Sorted(Insert(Unbounded, s, x))
  {
    var k := Slot(Unbounded, s, x);
    forall i | k <= i < |s| ensures Ordered(x, s[i]) {
      if k < i { assert Ordered(s[k], s[i]); }
    }
  }

  // ---------- conservation ----------

  function Serials<T>(s: seq<Item<T>>): (r: seq<nat>)
    ensures |r| == |s| && forall i :: 0 <= i < |s| ==> r[i] == s[i].serial
  {
    seq(|s|, i requires 0 <= i < |s| => s[i].serial)
  }

  function RanItems<T>(s: seq<Ran<T>>): (r: seq<Item<T>>)
    ensures |r| == |s| && forall i :: 0 <= i < |s| ==> r[i] == s[i].item
  {
    seq(|s|, i requires 0 <= i < |s| => s[i].item)
  }

  function UpTo(n: nat): (r: seq<nat>)
    ensures |r| == n && forall i :: 0 <= i < n ==> r[i] == i
  {
    seq(n, i requires 0 <= i < n => i)
  }

  /** The adds accounted for: listed, on hold, run or deleted. */
  ghost function Account<T>(t: Trace<T>): multiset<nat> {
    multiset(Serials(t.st.jobs)) + multiset(Serials(t.st.pending)) + multiset(Serials(RanItems(t.ran))) + multiset(Serials(t.deleted))
  }

  lemma SerialsConcat<T>(a: seq<Item<T>>, b: seq<Item<T>>)
    ensures Serials(a + b) == Serials(a) + Serials(b)
    ensures multiset(Serials(a + b)) == multiset(Serials(a)) + multiset(Serials(b))
  {
    assert Serials(a + b) == Serials(a) + Serials(b);
  }

  lemma SerialsInsert<T>(c: Clock, s: seq<Item<T>>, x: Item<T>)
    ensures multiset(Serials(Insert(c, s, x))) == multiset(Serials(s)) + multiset{x.serial}
  {
    var k := Slot(c, s, x);
    SerialsConcat(s[..k], [x]);
    SerialsConcat(s[..k] + [x], s[k..]);
    SerialsConcat(s[..k], s[k..]);
    assert s[..k] + s[k..] == s;
    assert Serials([x]) == [x.serial];
  }

  lemma {:induction false} SerialsMatching<T>(s: seq<Item<T>>, job: T)
    ensures multiset(Serials(s)) == multiset(Serials(Without(s, job))) + multiset(Serials(Matching(s, job)))
  {
    if s != [] {
      SerialsMatching(s[1..], job);
      assert s == [s[0]] + s[1..];
      SerialsConcat([s[0]], s[1..]);
      SerialsConcat([s[0]], Without(s[1..], job));
      SerialsConcat([s[0]], Matching(s[1..], job));
    }
  }

  lemma {:induction false} SerialsPick<T>(s: seq<Item<T>>, b: set<int>, a: Option<T>)
    ensures multiset(Serials(s)) == multiset(Serials(Pick(s, b, a, true))) + multiset(Serials(Pick(s, b, a, false)))
  {
    if s != [] {
      SerialsPick(s[1..], b, a);
      assert s == [s[0]] + s[1..];
      SerialsConcat([s[0]], s[1..]);
      SerialsConcat([s[0]], Pick(s[1..], b, a, true));
      SerialsConcat([s[0]], Pick(s[1..], b, a, false));
    }
  }

  // ---------- what every call keeps ----------

  ghost predicate Good<T>(st: State<T>) {
    && Sorted(st.jobs)
    && (forall i :: 0 <= i < |st.jobs| ==> st.now <= st.jobs[i].start && MayRun(st.blocked, st.allowed, st.jobs[i]))
    && (forall i :: 0 <= i < |st.pending| ==> st.pending[i].group in st.blocked)
  }

  /** Callbacks run at their job's start, in time order, and never later than now. */
  ghost predicate RanInTime<T>(t: Trace<T>) {
    && (forall i :: 0 <= i < |t.ran| ==> t.ran[i].time == t.ran[i].item.start <= t.st.now)
    && (forall i, j :: 0 <= i < j < |t.ran| ==> t.ran[i].time <= t.ran[j].time)
  }

  ghost predicate Invariant<T>(t: Trace<T>) {
    && Good(t.st) && RanInTime(t)
    && |t.added| == t.st.adds && Account(t) == multiset(UpTo(t.st.adds))
  }

  lemma PlaceKeeps<T>(st: State<T>, x: Item<T>)
    requires Good(st) && st.now <= x.start
    ensures Good(Place(Unbounded, st, x))
    ensures multiset(Serials(Place(Unbounded, st, x).jobs)) + multiset(Serials(Place(Unbounded, st, x).pending))
         == multiset(Serials(st.jobs)) + multiset(Serials(st.pending)) + multiset{x.serial}
  {
    InsertSorted(st.jobs, x);
    SerialsInsert(Unbounded, st.jobs, x);
    SerialsConcat(st.pending, [x.(start := 0)]);
    assert Serials([x.(start := 0)]) == [x.serial];
  }

  lemma {:induction false} PickSorted<T>(s: seq<Item<T>>, b: set<int>, a: Option<T>, want: bool)
    requires Sorted(s)
    ensures Sorted(Pick(s, b, a, want))
  {
    if s != [] {
      PickSorted(s[1..], b, a, want);
      PickAll(s[1..], b, a, want);
    }
  }

  lemma SweepGood<T>(st: State<T>)
    requires Sorted(st.jobs)
    requires forall i :: 0 <= i < |st.jobs| ==> st.now <= st.jobs[i].start
    requires forall i :: 0 <= i < |st.pending| ==> st.pending[i].group in st.blocked
    ensures Good(Sweep(st))
    ensures multiset(Serials(Sweep(st).jobs)) + multiset(Serials(Sweep(st).pending))
         == multiset(Serials(st.jobs)) + multiset(Serials(st.pending))
  {
    PickSorted(st.jobs, st.blocked, st.allowed, true);
    PickAll(st.jobs, st.blocked, st.allowed, true);
    PickAll(st.jobs, st.blocked, st.allowed, false);
    SerialsPick(st.jobs, st.blocked, st.allowed);
    SerialsConcat(st.pending, Pick(st.jobs, st.blocked, st.allowed, false));
  }

  lemma RestoreGood<T>(st: State<T>, groups: set<int>, except: Option<T>)
    requires Good(st)
    ensures Good(RestoreGroups(Unbounded, st, groups, except))
    ensures var r := RestoreGroups(Unbounded, st, groups, except);
      && r.now == st.now && r.adds == st.adds
      && multiset(Serials(r.jobs)) + multiset(Serials(r.pending)) == multiset(Serials(st.jobs)) + multiset(Serials(st.pending))
  {
    var s0 := st.(blocked := groups, allowed := except);
    var todo, kept := Pick(st.pending, groups, except, true), Pick(st.pending, groups, except, false);
    PickAll(st.pending, groups, except, true);
    PickAll(st.pending, groups, except, false);
    SerialsPick(st.pending, groups, except);
    Readmitted(s0.(pending := kept), todo);
    ReadmitKeeps(Unbounded, s0.(pending := kept), todo);
    ReadmitSerials(Unbounded, s0.(pending := kept), todo);
    SweepGood(Release(Unbounded, s0));
  }

  lemma {:induction false} ReadmitSerials<T>(c: Clock, st: State<T>, todo: seq<Item<T>>)
    requires forall i :: 0 <= i < |todo| ==> MayRun(st.blocked, st.allowed, todo[i])
    ensures multiset(Serials(Readmit(c, st, todo).jobs)) == multiset(Serials(st.jobs)) + multiset(Serials(todo))
    decreases |todo|
  {
    if todo != [] {
      var x := Bump(c, st.now, todo[0]);
      SerialsInsert(c, st.jobs, x);
      ReadmitSerials(c, Place(c, st, x), todo[1..]);
      SerialsConcat([todo[0]], todo[1..]);
      assert todo == [todo[0]] + todo[1..] && Serials([todo[0]]) == [x.serial];
      hide Serials;
    }
  }

  lemma {:induction false} Readmitted<T>(st: State<T>, todo: seq<Item<T>>)
    requires Sorted(st.jobs)
    requires forall i :: 0 <= i < |st.jobs| ==> st.now <= st.jobs[i].start
    requires forall i :: 0 <= i < |todo| ==> MayRun(st.blocked, st.allowed, todo[i])
    ensures var r := Readmit(Unbounded, st, todo).jobs;
      Sorted(r) && forall i :: 0 <= i < |r| ==> st.now <= r[i].start
    decreases |todo|
  {
    if todo != [] {
      var x := Bump(Unbounded, st.now, todo[0]);
      InsertSorted(st.jobs, x);
      hide Sorted;
      Readmitted(Place(Unbounded, st, x), todo[1..]);
    }
  }

  lemma {:induction false} WithoutIn<T>(s: seq<Item<T>>, job: T)
    ensures forall x :: x in Without(s, job) ==> x in s
    ensures Sorted(s) ==> Sorted(Without(s, job))
  {
    if s != [] {
      WithoutIn(s[1..], job);
      assert forall x :: x in s[1..] ==> x in s;
      if Sorted(s) {
        forall j | 0 <= j < |Without(s[1..], job)| ensures Ordered(s[0], Without(s[1..], job)[j]) {
          assert Without(s[1..], job)[j] in s[1..];
        }
      }
    }
  }

  lemma DelGood<T>(st: State<T>, job: T)
    requires Good(st)
    ensures Good(Del(st, job))
  {
    WithoutIn(st.jobs, job);
    WithoutIn(st.pending, job);
    forall i | 0 <= i < |Without(st.jobs, job)|
      ensures st.now <= Without(st.jobs, job)[i].start && MayRun(st.blocked, st.allowed, Without(st.jobs, job)[i])
    {
      assert Without(st.jobs, job)[i] in st.jobs;
    }
    forall i | 0 <= i < |Without(st.pending, job)| ensures Without(st.pending, job)[i].group in st.blocked {
      assert Without(st.pending, job)[i] in st.pending;
    }
  }

  lemma AddAccount<T>(t: Trace<T>, op: Op<T>)
    requires op.AddJob? && Invariant(t) && Legal(Unbounded, t, op)
    ensures Account(Step(Unbounded, t, op)) == multiset(UpTo(t.st.adds + 1))
    ensures Good(Step(Unbounded, t, op).st)
  {
    PlaceKeeps(t.st.(adds := t.st.adds + 1), Item(op.job, t.st.adds, op.start, op.priority, op.group));
    assert UpTo(t.st.adds + 1) == UpTo(t.st.adds) + [t.st.adds];
  }

  lemma DelAccount<T>(t: Trace<T>, job: T)
    ensures Account(Step(Unbounded, t, DelJob(job))) == Account(t)
  {
    SerialsMatching(t.st.jobs, job);
    SerialsMatching(t.st.pending, job);
    SerialsConcat(t.deleted, Matching(t.st.jobs, job));
    SerialsConcat(t.deleted + Matching(t.st.jobs, job), Matching(t.st.pending, job));
  }

  lemma RunAccount<T>(t: Trace<T>)
    requires t.st.jobs != []
    ensures Account(Step(Unbounded, t, RunNext)) == Account(t)
  {
    hide Forwarded;
    var x, rest, u := t.st.jobs[0], t.st.jobs[1..], Step(Unbounded, t, RunNext);
    assert t.st.jobs == [x] + rest;
    SerialsConcat([x], rest);
    SerialsConcat(RanItems(t.ran), [x]);
    assert RanItems(u.ran) == RanItems(t.ran) + [x];
    hide Serials, RanItems;
    assert multiset(Serials(u.st.jobs)) + multiset(Serials([x])) == multiset(Serials(t.st.jobs));
  }

  lemma RunKeeps<T>(t: Trace<T>)
    requires Invariant(t) && t.st.jobs != []
    ensures Invariant(Step(Unbounded, t, RunNext))
  {
    RunAccount(t);
    RunGood(t.st);
    RunInTime(t);
    hide Account, Good, RanInTime;
  }

  lemma RunInTime<T>(t: Trace<T>)
    requires RanInTime(t) && t.st.jobs != []
    requires Forwarded(Unbounded, t.st) == t.st.jobs[0].start >= t.st.now
    ensures RanInTime(Step(Unbounded, t, RunNext))
  {
    hide Forwarded;
    var u := Step(Unbounded, t, RunNext);
    forall i | 0 <= i < |t.ran| ensures u.ran[i] == t.ran[i] {}
  }

  lemma RunGood<T>(st: State<T>)
    requires Good(st) && st.jobs != []
    ensures Good(RunFirst(Unbounded, st)) && Forwarded(Unbounded, st) == st.jobs[0].start >= st.now
  {
    hide MayRun;
    assert forall i :: 0 < i < |st.jobs| ==> Ordered(st.jobs[0], st.jobs[i]);
  }

  lemma DelKeeps<T>(t: Trace<T>, job: T)
    requires Invariant(t)
    ensures Invariant(Step(Unbounded, t, DelJob(job)))
  {
    DelGood(t.st, job);
    DelAccount(t, job);
    hide Account, Good;
  }

  lemma GroupsKeep<T>(t: Trace<T>, op: Op<T>)
    requires Invariant(t) && (op.Block? || op.Restore?)
    ensures Invariant(Step(Unbounded, t, op))
  {
    hide Release, Pick, Serials, RanItems, Sorted;
    match op
    case Block(groups, except) => SweepGood(t.st.(blocked := t.st.blocked + groups, allowed := except));
    case Restore(groups, except) => RestoreGood(t.st, groups, except);
  }

  /** No call breaks the invariant. */
  lemma StepKeeps<T>(t: Trace<T>, op: Op<T>)
    requires Invariant(t) && Legal(Unbounded, t, op)
    ensures Invariant(Step(Unbounded, t, op))
  {
    match op
    case AddJob(_, _, _, _) => AddAccount(t, op); hide Account, Good;
    case DelJob(job) => DelKeeps(t, job);
    case RunNext => RunKeeps(t);
    case _ => GroupsKeep(t, op);
  }

  /**
   * After every legal sequence of calls: each callback so far ran exactly at its job's start and in
   * time order, the list is sorted and holds only jobs that may run, and every add is accounted
   * for exactly once among run, deleted, listed and on hold.
   */
  lemma {:induction false} WholeRun<T>(t: Trace<T>, ops: seq<Op<T>>)
    requires Invariant(t) && LegalRun(Unbounded, t, ops)
    ensures Invariant(Execute(Unbounded, t, ops))
    decreases |ops|
  {
    if ops != [] {
      StepKeeps(t, ops[0]);
      WholeRun(Step(Unbounded, t, ops[0]), ops[1..]);
    }
  }

  lemma StartIsGood<T>(now: int)
    ensures Invariant(Start<T>(now))
  {
    assert Serials<T>([]) == [] && UpTo(0) == [];
  }

  // ---------- insertion order, among jobs whose groups are never blocked ----------

  /** x's turn comes strictly first: earlier start, else higher priority, else added earlier. */
  predicate Precedes<T>(x: Item<T>, y: Item<T>) {
    x.start < y.start || (x.start == y.start && (x.priority > y.priority || (x.priority == y.priority && x.serial < y.serial)))
  }

  ghost predicate TurnOrder<T>(s: seq<Item<T>>) {
    forall i, j :: 0 <= i < j < |s| ==> Precedes(s[i], s[j])
  }

  /** Every block and restore of the run stays within these groups. */
  ghost predicate BlocksOnly<T>(ops: seq<Op<T>>, touched: set<int>) {
    forall i :: 0 <= i < |ops| && (ops[i].Block? || ops[i].Restore?) ==> ops[i].groups <= touched
  }

  /** The items of s whose groups are never blocked, in order. */
  function Untouched<T>(s: seq<Item<T>>, touched: set<int>): seq<Item<T>> {
    if s == [] then []
    else if s[0].group in touched then Untouched(s[1..], touched)
    else [s[0]] + Untouched(s[1..], touched)
  }

  ghost predicate AllTouched<T>(s: seq<Item<T>>, touched: set<int>) {
    forall i :: 0 <= i < |s| ==> s[i].group in touched
  }

  ghost predicate InTurn<T>(t: Trace<T>, touched: set<int>) {
    && t.st.blocked <= touched && AllTouched(t.st.pending, touched) && |t.added| == t.st.adds && Sorted(t.st.jobs)
    && ListInTurn(Untouched(t.st.jobs, touched), t.added)
    && RanInTurn(t.ran, t.added, touched)
    && RanBefore(t.ran, Untouched(t.st.jobs, touched), touched)
  }

  /** Listed jobs are in turn, and as they were added. */
  ghost predicate ListInTurn<T>(s: seq<Item<T>>, added: seq<Item<T>>) {
    TurnOrder(s) && forall i :: 0 <= i < |s| ==> s[i].serial < |added| && s[i] == added[s[i].serial]
  }

  /** Of two callbacks, if the job of the later one had been added when the earlier one ran, they ran in turn. */
  ghost predicate RanInTurn<T>(ran: seq<Ran<T>>, added: seq<Item<T>>, touched: set<int>) {
    && (forall i :: 0 <= i < |ran| && ran[i].item.group !in touched ==>
         ran[i].item.serial < ran[i].adds <= |added| && ran[i].item == added[ran[i].item.serial])
    && (forall a, b :: 0 <= a < b < |ran| && ran[a].item.group !in touched && ran[b].item.group !in touched ==>
         ran[b].item.serial < ran[a].adds ==> Precedes(ran[a].item, ran[b].item))
  }

  /** What ran went before what was listed then and still is. */
  ghost predicate RanBefore<T>(ran: seq<Ran<T>>, s: seq<Item<T>>, touched: set<int>) {
    forall a, i :: 0 <= a < |ran| && ran[a].item.group !in touched && 0 <= i < |s| && s[i].serial < ran[a].adds ==>
      Precedes(ran[a].item, s[i])
  }

  lemma {:induction false} UntouchedConcat<T>(a: seq<Item<T>>, b: seq<Item<T>>, touched: set<int>)
    ensures Untouched(a + b, touched) == Untouched(a, touched) + Untouched(b, touched)
  {
    if a == [] {
      assert a + b == b;
    } else {
      assert (a + b)[1..] == a[1..] + b;
      UntouchedConcat(a[1..], b, touched);
    }
  }

  lemma {:induction false} UntouchedIn<T>(s: seq<Item<T>>, touched: set<int>)
    ensures forall x :: x in Untouched(s, touched) ==> x in s && x.group !in touched
    ensures AllTouched(s, touched) ==> Untouched(s, touched) == []
  {
    if s != [] {
      UntouchedIn(s[1..], touched);
      assert s == [s[0]] + s[1..];
      if AllTouched(s, touched) {
        assert s[0].group in touched;
        forall i | 0 <= i < |s[1..]| ensures s[1..][i].group in touched { assert s[i + 1].group in touched; }
      }
    }
  }

  /** Leaving out touched jobs and inserting commute. */
  lemma {:induction false} UntouchedInsert<T>(s: seq<Item<T>>, x: Item<T>, touched: set<int>)
    requires Sorted(s)
    ensures Untouched(Insert(Unbounded, s, x), touched)
      == if x.group in touched then Untouched(s, touched) else Insert(Unbounded, Untouched(s, touched), x)
  {
    InsertCons(Unbounded, s, x);
    var u := Untouched(s, touched);
    InsertCons(Unbounded, u, x);
    if s != [] {
      hide Insert;
      if GoesBefore(Unbounded, x, s[0]) {
        assert ([x] + s)[1..] == s;
        UntouchedIn(s, touched);
        assert u != [] ==> u[0] in s && GoesBefore(Unbounded, x, u[0]) by { if u != [] { FirstStays(s, x, u[0]); } }
      } else {
        UntouchedInsert(s[1..], x, touched);
        var rest := Insert(Unbounded, s[1..], x);
        assert ([s[0]] + rest)[1..] == rest;
        assert s[0].group !in touched ==> u[1..] == Untouched(s[1..], touched);
      }
    }
  }

  lemma FirstStays<T>(s: seq<Item<T>>, x: Item<T>, y: Item<T>)
    requires Sorted(s) && s != [] && GoesBefore(Unbounded, x, s[0]) && y in s
    ensures GoesBefore(Unbounded, x, y)
  {
    var i :| 0 <= i < |s| && s[i] == y;
    if i > 0 { assert Ordered(s[0], s[i]); }
  }

  lemma {:induction false} UntouchedWithout<T>(s: seq<Item<T>>, job: T, touched: set<int>)
    ensures Untouched(Without(s, job), touched) == Without(Untouched(s, touched), job)
    ensures AllTouched(s, touched) ==> AllTouched(Without(s, job), touched)
  {
    if s != [] {
      UntouchedWithout(s[1..], job, touched);
      var w := Without(s[1..], job);
      assert ([s[0]] + w)[1..] == w;
      var u := Untouched(s[1..], touched);
      assert ([s[0]] + u)[1..] == u;
      if AllTouched(s, touched) {
        forall i | 0 <= i < |s[1..]| ensures s[1..][i].group in touched { assert s[i + 1].group in touched; }
        assert s[0].group in touched;
      }
    }
  }

  lemma {:induction false} UntouchedPick<T>(s: seq<Item<T>>, b: set<int>, a: Option<T>, touched: set<int>)
    requires b <= touched
    ensures Untouched(Pick(s, b, a, true), touched) == Untouched(s, touched) && AllTouched(Pick(s, b, a, false), touched)
  {
    if s != [] {
      UntouchedPick(s[1..], b, a, touched);
      var p := Pick(s[1..], b, a, true);
      assert ([s[0]] + p)[1..] == p;
    }
  }

  lemma {:induction false} PickTouched<T>(s: seq<Item<T>>, b: set<int>, a: Option<T>, want: bool, touched: set<int>)
    requires AllTouched(s, touched)
    ensures AllTouched(Pick(s, b, a, want), touched)
  {
    if s != [] {
      assert s[0].group in touched;
      forall i | 0 <= i < |s[1..]| ensures s[1..][i].group in touched { assert s[i + 1].group in touched; }
      PickTouched(s[1..], b, a, want, touched);
    }
  }

  /** Re-adding touched jobs leaves the others as they are. */
  lemma {:induction false} UntouchedReadmit<T>(st: State<T>, todo: seq<Item<T>>, touched: set<int>)
    requires Sorted(st.jobs) && AllTouched(todo, touched) && forall i :: 0 <= i < |todo| ==> MayRun(st.blocked, st.allowed, todo[i])
    ensures var r := Readmit(Unbounded, st, todo);
      Sorted(r.jobs) && Untouched(r.jobs, touched) == Untouched(st.jobs, touched)
    decreases |todo|
  {
    if todo != [] {
      var x := Bump(Unbounded, st.now, todo[0]);
      assert todo[0].group in touched && MayRun(st.blocked, st.allowed, x);
      InsertSorted(st.jobs, x);
      UntouchedInsert(st.jobs, x, touched);
      forall i | 0 <= i < |todo[1..]| ensures todo[1..][i].group in touched { assert todo[i + 1].group in touched; }
      hide Sorted, Untouched, MayRun;
      UntouchedReadmit(Place(Unbounded, st, x), todo[1..], touched);
    }
  }

  lemma InsertInTurn<T>(s: seq<Item<T>>, x: Item<T>)
    requires TurnOrder(s) && forall i :: 0 <= i < |s| ==> s[i].serial < x.serial
    ensures TurnOrder(Insert(Unbounded, s, x))
  {
    var k, r := Slot(Unbounded, s, x), Insert(Unbounded, s, x);
    forall i, j | 0 <= i < j < |r| ensures Precedes(r[i], r[j]) {
      if i == k && k + 1 < j { assert Precedes(s[k], s[j - 1]); }
    }
  }

  /** An add at the end of the history. */
  lemma AddedInTurn<T>(s: seq<Item<T>>, x: Item<T>, added: seq<Item<T>>, ran: seq<Ran<T>>, touched: set<int>)
    requires ListInTurn(s, added) && RanInTurn(ran, added, touched) && RanBefore(ran, s, touched) && x.serial == |added|
    ensures ListInTurn(s, added + [x]) && RanInTurn(ran, added + [x], touched)
    ensures ListInTurn(Insert(Unbounded, s, x), added + [x]) && RanBefore(ran, Insert(Unbounded, s, x), touched)
  {
    InsertInTurn(s, x);
    var r := Insert(Unbounded, s, x);
    hide Precedes, TurnOrder;
    forall i | 0 <= i < |r| ensures r[i] == x || r[i] in s {}
  }

  lemma AddInTurn<T>(t: Trace<T>, op: Op<T>, touched: set<int>)
    requires InTurn(t, touched) && op.AddJob?
    ensures InTurn(Step(Unbounded, t, op), touched)
  {
    var x := Item(op.job, t.st.adds, op.start, op.priority, op.group);
    AddedInTurn(Untouched(t.st.jobs, touched), x, t.added, t.ran, touched);
    UntouchedInsert(t.st.jobs, x, touched);
    InsertSorted(t.st.jobs, x);
    hide Sorted, ListInTurn, RanInTurn, RanBefore, Insert;
  }

  lemma DelInTurn<T>(t: Trace<T>, job: T, touched: set<int>)
    requires InTurn(t, touched)
    ensures InTurn(Step(Unbounded, t, DelJob(job)), touched)
  {
    var s := Untouched(t.st.jobs, touched);
    WithoutInTurn(s, job);
    WithoutIn(t.st.jobs, job);
    UntouchedWithout(t.st.jobs, job, touched);
    UntouchedWithout(t.st.pending, job, touched);
    hide Precedes, TurnOrder, Sorted, RanInTurn;
    forall i | 0 <= i < |Without(s, job)| ensures Without(s, job)[i] in s {}
  }

  lemma RunInTurn<T>(t: Trace<T>, touched: set<int>)
    requires InTurn(t, touched) && t.st.jobs != []
    ensures InTurn(Step(Unbounded, t, RunNext), touched)
  {
    var x, s := t.st.jobs[0], Untouched(t.st.jobs, touched);
    var rest, r := Untouched(t.st.jobs[1..], touched), Ran(x, Forwarded(Unbounded, t.st), t.st.adds);
    assert Sorted(t.st.jobs[1..]);
    hide Sorted, Forwarded;
    if x.group !in touched {
      assert s == [x] + rest;
      RanNext(s, t.ran, t.added, touched, r);
      assert s[1..] == rest;
    } else {
      RanTouched(t.ran, t.added, s, touched, r);
    }
    hide ListInTurn, RanInTurn, RanBefore, Untouched;
  }

  lemma RanNext<T>(s: seq<Item<T>>, ran: seq<Ran<T>>, added: seq<Item<T>>, touched: set<int>, r: Ran<T>)
    requires s != [] && ListInTurn(s, added) && RanInTurn(ran, added, touched) && RanBefore(ran, s, touched)
    requires r.item == s[0] && r.adds == |added|
    ensures ListInTurn(s[1..], added) && RanInTurn(ran + [r], added, touched) && RanBefore(ran + [r], s[1..], touched)
  {
    hide Precedes;
    assert TurnOrder(s[1..]);
  }

  lemma RanTouched<T>(ran: seq<Ran<T>>, added: seq<Item<T>>, s: seq<Item<T>>, touched: set<int>, r: Ran<T>)
    requires RanInTurn(ran, added, touched) && RanBefore(ran, s, touched) && r.item.group in touched
    ensures RanInTurn(ran + [r], added, touched) && RanBefore(ran + [r], s, touched)
  {
    hide Precedes;
  }

  lemma GroupsInTurn<T>(t: Trace<T>, op: Op<T>, touched: set<int>)
    requires InTurn(t, touched) && (op.Block? || op.Restore?) && op.groups <= touched
    ensures InTurn(Step(Unbounded, t, op), touched)
  {
    match op
    case Block(groups, except) =>
      SweepInTurn(t.st.(blocked := t.st.blocked + groups, allowed := except), touched);
      hide Sorted, ListInTurn, RanInTurn, RanBefore, Untouched;
    case Restore(groups, except) =>
      var s0 := t.st.(blocked := groups, allowed := except);
      ReleaseInTurn(s0, touched);
      ReleaseKeeps(s0);
      SweepInTurn(Release(Unbounded, s0), touched);
      hide Sorted, ListInTurn, RanInTurn, RanBefore, Untouched, Release;
  }

  lemma SweepInTurn<T>(st: State<T>, touched: set<int>)
    requires Sorted(st.jobs) && AllTouched(st.pending, touched) && st.blocked <= touched
    ensures var r := Sweep(st);
      Sorted(r.jobs) && AllTouched(r.pending, touched) && Untouched(r.jobs, touched) == Untouched(st.jobs, touched)
  {
    PickSorted(st.jobs, st.blocked, st.allowed, true);
    UntouchedPick(st.jobs, st.blocked, st.allowed, touched);
  }

  lemma ReleaseInTurn<T>(st: State<T>, touched: set<int>)
    requires Sorted(st.jobs) && AllTouched(st.pending, touched)
    ensures var r := Release(Unbounded, st);
      Sorted(r.jobs) && AllTouched(r.pending, touched) && Untouched(r.jobs, touched) == Untouched(st.jobs, touched)
  {
    var keep, todo := Pick(st.pending, st.blocked, st.allowed, false), Pick(st.pending, st.blocked, st.allowed, true);
    PickAll(st.pending, st.blocked, st.allowed, true);
    PickTouched(st.pending, st.blocked, st.allowed, true, touched);
    PickTouched(st.pending, st.blocked, st.allowed, false, touched);
    UntouchedReadmit(st.(pending := keep), todo, touched);
    ReleaseKeeps(st);
    hide Pick, Sorted, Untouched;
  }

  lemma ReleaseKeeps<T>(st: State<T>)
    ensures var r := Release(Unbounded, st);
      r == st.(jobs := r.jobs, sync := r.sync, pending := Pick(st.pending, st.blocked, st.allowed, false))
  {
    PickAll(st.pending, st.blocked, st.allowed, true);
    ReadmitKeeps(Unbounded, st.(pending := Pick(st.pending, st.blocked, st.allowed, false)), Pick(st.pending, st.blocked, st.allowed, true));
  }

  lemma StepInTurn<T>(t: Trace<T>, op: Op<T>, touched: set<int>)
    requires InTurn(t, touched) && Legal(Unbounded, t, op) && (op.Block? || op.Restore? ==> op.groups <= touched)
    ensures InTurn(Step(Unbounded, t, op), touched)
  {
    match op
    case AddJob(_, _, _, _) => AddInTurn(t, op, touched);
    case DelJob(job) => DelInTurn(t, job, touched);
    case RunNext => RunInTurn(t, touched);
    case _ => GroupsInTurn(t, op, touched);
  }

  lemma {:induction false} WithoutInTurn<T>(s: seq<Item<T>>, job: T)
    requires TurnOrder(s)
    ensures forall x :: x in Without(s, job) ==> x in s
    ensures TurnOrder(Without(s, job))
  {
    if s != [] {
      WithoutInTurn(s[1..], job);
      assert forall x :: x in s[1..] ==> x in s;
      forall j | 0 <= j < |Without(s[1..], job)| ensures Precedes(s[0], Without(s[1..], job)[j]) {
        assert Without(s[1..], job)[j] in s[1..];
      }
    }
  }

  /**
   * Whatever is blocked and restored in between: of two jobs of groups that are never blocked that
   * were both waiting, the one that ran first had the earlier start, or at equal starts the higher
   * priority, or at equal priorities had been added first; and such a job runs with the fields it was
   * added with. Without any blocking these are all jobs.
   */
  lemma {:induction false} RunsInTurn<T>(t: Trace<T>, ops: seq<Op<T>>, touched: set<int>)
    requires InTurn(t, touched) && LegalRun(Unbounded, t, ops) && BlocksOnly(ops, touched)
    ensures InTurn(Execute(Unbounded, t, ops), touched)
    decreases |ops|
  {
    if ops != [] {
      StepInTurn(t, ops[0], touched);
      assert BlocksOnly(ops[1..], touched);
      hide InTurn;
      RunsInTurn(Step(Unbounded, t, ops[0]), ops[1..], touched);
    }
  }

  /** So whatever ran in a run from an empty scheduler ran in turn. */
  lemma StartsInTurn<T>(now: int, touched: set<int>)
    ensures InTurn(Start<T>(now), touched)
  {
  }
}
