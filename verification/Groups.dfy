/** Blocking groups of jobs and restoring them. */
module Groups {
  import opened Clock
  import opened Common
  import opened SchedState
  import opened SchedRuns

  ghost predicate AllMayRun<T>(s: seq<Item<T>>, blocked: set<int>, allowed: Option<T>, want: bool) {
    forall i :: 0 <= i < |s| ==> MayRun(blocked, allowed, s[i]) == want
  }

  /** Sorted, nothing in the past, and only jobs that may run on the list: what every run keeps. */
  ghost predicate Ready<T>(st: State<T>) {
    && Sorted(st.jobs)
    && (forall i :: 0 <= i < |st.jobs| ==> st.now <= st.jobs[i].start)
    && AllMayRun(st.jobs, st.blocked, st.allowed, true)
  }

  /** From any state, on either clock, a restore leaves each job on the list it belongs on. */
  lemma RestoreSorts<T>(c: Clock, st: State<T>, groups: set<int>, except: Option<T>)
    ensures var r := RestoreGroups(c, st, groups, except);
      && r.blocked == groups && r.allowed == except
      && AllMayRun(r.jobs, groups, except, true) && AllMayRun(r.pending, groups, except, false)
  {
    var s0 := st.(blocked := groups, allowed := except);
    var kept, todo := Pick(st.pending, groups, except, false), Pick(st.pending, groups, except, true);
    PickAll(st.pending, groups, except, false);
    PickAll(st.pending, groups, except, true);
    ReadmitKeeps(c, s0.(pending := kept), todo);
    var r := Release(c, s0);
    PickAll(r.jobs, groups, except, true);
    PickAll(r.jobs, groups, except, false);
  }

  /**
   * A block leaves only jobs on the list that may run. It releases nothing: a job already on hold
   * stays there even when it is the one now allowed.
   */
  lemma BlockHolds<T>(st: State<T>, groups: set<int>, except: Option<T>)
    requires forall i :: 0 <= i < |st.pending| ==> st.pending[i].group in st.blocked
    ensures var r := BlockGroups(st, groups, except);
      && AllMayRun(r.jobs, r.blocked, r.allowed, true) && st.pending <= r.pending
      && forall i :: 0 <= i < |r.pending| ==>
           (MayRun(r.blocked, r.allowed, r.pending[i]) <==> i < |st.pending| && Some(st.pending[i].job) == except)
  {
    PickAll(st.jobs, st.blocked + groups, except, true);
    PickAll(st.jobs, st.blocked + groups, except, false);
  }

  // ---------- what a block and a restore leave where ----------

  /** x's group is not blocked, or x is the job allowed. */
  predicate Free<T(==)>(blocked: set<int>, allowed: Option<T>, x: Item<T>) {
    x.group in blocked ==> allowed == Some(x.job)
  }

  /** A job is found among those of its kind, behind those of its kind that precede it; there are no others. */
  lemma PickedInOrder<T>(s: seq<Item<T>>, b: set<int>, a: Option<T>, i: nat)
    requires i < |s|
    ensures var n := |Pick(s[..i], b, a, Free(b, a, s[i]))|;
      n < |Pick(s, b, a, Free(b, a, s[i]))| && Pick(s, b, a, Free(b, a, s[i]))[n] == s[i]
    ensures multiset(s) == multiset(Pick(s, b, a, true)) + multiset(Pick(s, b, a, false))
  {
    var w := Free(b, a, s[i]);
    assert MayRun(b, a, s[i]) == w;
    PickMultiset(s, b, a);
    PickStep(s, i, b, a, w);
    hide Pick, MayRun, Free;
    assert s == s[..i + 1] + s[i + 1..];
    PickConcat(s[..i + 1], s[i + 1..], b, a, w);
  }

  lemma PickWithout<T>(s: seq<Item<T>>, k: nat, b: set<int>, a: Option<T>, want: bool)
    requires k < |s|
    ensures var x, rest := s[k], s[..k] + s[k + 1..];
      && multiset(rest) == multiset(s) - multiset{x}
      && multiset(Pick(s, b, a, want)) == multiset(Pick(rest, b, a, want)) + multiset(Pick([x], b, a, want))
  {
    hide Pick;
    var front, back := s[..k], s[k + 1..];
    assert s == front + [s[k]] + back;
    PickConcat(front + [s[k]], back, b, a, want);
    PickConcat(front, [s[k]], b, a, want);
    PickConcat(front, back, b, a, want);
  }

  /** Permuted lists are picked from alike. */
  lemma {:induction false} PickPermuted<T>(s: seq<Item<T>>, t: seq<Item<T>>, b: set<int>, a: Option<T>, want: bool)
    requires multiset(s) == multiset(t)
    ensures multiset(Pick(s, b, a, want)) == multiset(Pick(t, b, a, want))
    decreases |s|
  {
    hide Pick;
    if s == [] {
      assert |multiset(t)| == 0;
    } else {
      assert s[0] in multiset(s);
      var k :| 0 <= k < |t| && t[k] == s[0];
      PickWithout(s, 0, b, a, want);
      PickWithout(t, k, b, a, want);
      assert s[..0] + s[1..] == s[1..];
      PickPermuted(s[1..], t[..k] + t[k + 1..], b, a, want);
    }
  }

  /** A block adds its groups, and moves the jobs that are not free behind those on hold; no other field changes. */
  lemma BlockExactly<T>(st: State<T>, groups: set<int>, except: Option<T>)
    ensures var r, b := BlockGroups(st, groups, except), st.blocked + groups;
      && r == st.(blocked := b, allowed := except, jobs := r.jobs, pending := r.pending)
      && r.jobs == Pick(st.jobs, b, except, true) && r.pending == st.pending + Pick(st.jobs, b, except, false)
      && (forall i :: 0 <= i < |r.jobs| ==> Free(b, except, r.jobs[i]))
      && (forall i :: |st.pending| <= i < |r.pending| ==> !Free(b, except, r.pending[i]))
      && multiset(r.jobs) + multiset(r.pending) == multiset(st.jobs) + multiset(st.pending)
  {
    var b := st.blocked + groups;
    PickMultiset(st.jobs, b, except);
    PickAll(st.jobs, b, except, true);
    PickAll(st.jobs, b, except, false);
    hide Pick;
    var kept, moved := Pick(st.jobs, b, except, true), Pick(st.jobs, b, except, false);
    var r := BlockGroups(st, groups, except);
    assert r.jobs == kept && r.pending == st.pending + moved;
    forall i | |st.pending| <= i < |r.pending| ensures !Free(b, except, r.pending[i]) {
      assert r.pending[i] == moved[i - |st.pending|];
    }
  }

  /** Jobs with starts in the past moved up to now. */
  function NotPast<T>(s: seq<Item<T>>, now: int): (r: seq<Item<T>>)
    ensures |r| == |s|
    ensures forall i :: 0 <= i < |s| ==> r[i] == s[i].(start := if s[i].start < now then now else s[i].start)
  {
    seq(|s|, i requires 0 <= i < |s| => s[i].(start := if s[i].start < now then now else s[i].start))
  }

  lemma {:induction false} ReadmitMultiset<T>(st: State<T>, todo: seq<Item<T>>)
    requires AllMayRun(todo, st.blocked, st.allowed, true)
    ensures multiset(Readmit(Unbounded, st, todo).jobs) == multiset(st.jobs) + multiset(NotPast(todo, st.now))
    decreases |todo|
  {
    assert NotPast<T>([], st.now) == [];
    if todo != [] {
      var x, rest := Bump(Unbounded, st.now, todo[0]), todo[1..];
      assert MayRun(st.blocked, st.allowed, todo[0]);
      var r := Place(Unbounded, st, x);
      assert r == st.(jobs := Insert(Unbounded, st.jobs, x), sync := r.sync);
      InsertMultiset(st.jobs, x);
      NotPastCons(todo, st.now);
      hide Insert, Request, Place, NotPast, MayRun;
      ReadmitMultiset(r, rest);
    }
  }

  lemma NotPastCons<T>(s: seq<Item<T>>, now: int)
    requires s != []
    ensures NotPast(s, now) == [Bump(Unbounded, now, s[0])] + NotPast(s[1..], now)
  {
  }

  lemma InsertMultiset<T>(s: seq<Item<T>>, x: Item<T>)
    ensures multiset(Insert(Unbounded, s, x)) == multiset(s) + multiset{x}
  {
    var k := Slot(Unbounded, s, x);
    assert s == s[..k] + s[k..];
  }

  /**
   * A restore reinstates the blocking, lists the free jobs of both lists, those that were on hold with
   * starts moved up to now, and leaves the others on hold, those that were before in front.
   */
  lemma RestoreExactly<T>(st: State<T>, groups: set<int>, except: Option<T>)
    ensures var r := RestoreGroups(Unbounded, st, groups, except);
      var free, held := Pick(st.pending, groups, except, true), Pick(st.pending, groups, except, false);
      && r == st.(blocked := groups, allowed := except, jobs := r.jobs, pending := r.pending, sync := r.sync)
      && multiset(r.jobs) == multiset(Pick(st.jobs, groups, except, true)) + multiset(NotPast(free, st.now))
      && held <= r.pending && multiset(r.pending[|held|..]) == multiset(Pick(st.jobs, groups, except, false))
  {
    var free, held := Pick(st.pending, groups, except, true), Pick(st.pending, groups, except, false);
    var s0 := st.(blocked := groups, allowed := except, pending := held);
    PickAll(st.pending, groups, except, true);
    ReadmitKeeps(Unbounded, s0, free);
    ReadmitMultiset(s0, free);
    var moved := NotPast(free, st.now);
    assert AllMayRun(moved, groups, except, true);
    PickTrivial(moved, groups, except, true);
    var jobs := Readmit(Unbounded, s0, free).jobs;
    hide Readmit, MayRun, NotPast;
    assert multiset(jobs) == multiset(st.jobs + moved);
    PickPermuted(jobs, st.jobs + moved, groups, except, true);
    PickPermuted(jobs, st.jobs + moved, groups, except, false);
    PickConcat(st.jobs, moved, groups, except, true);
    PickConcat(st.jobs, moved, groups, except, false);
    hide Pick;
    assert Pick(st.jobs, groups, except, false) + [] == Pick(st.jobs, groups, except, false);
  }

  // ---------- a block undone at once ----------

  function Key<T>(x: Item<T>): (int, int) {
    (x.start, x.priority)
  }

  function Keys<T>(s: seq<Item<T>>): (r: seq<(int, int)>)
    ensures |r| == |s| && forall i :: 0 <= i < |s| ==> r[i] == Key(s[i])
  {
    seq(|s|, i requires 0 <= i < |s| => Key(s[i]))
  }

  predicate KeyLe(a: (int, int), b: (int, int)) {
    a.0 < b.0 || (a.0 == b.0 && a.1 >= b.1)
  }

  ghost predicate KeysSorted(s: seq<(int, int)>) {
    forall i, j :: 0 <= i < j < |s| ==> KeyLe(s[i], s[j])
  }

  lemma FirstIsLeast(s: seq<(int, int)>, x: (int, int))
    requires KeysSorted(s) && x in multiset(s)
    ensures KeyLe(s[0], x)
  {
    var i :| 0 <= i < |s| && s[i] == x;
    assert i > 0 ==> KeyLe(s[0], s[i]);
  }

  lemma Tail<K>(s: seq<K>)
    requires s != []
    ensures multiset(s) == multiset{s[0]} + multiset(s[1..]) && multiset(s[1..]) == multiset(s) - multiset{s[0]}
    ensures s[0] in multiset(s)
  {
    assert s == [s[0]] + s[1..];
  }

  /** A sorted sequence is determined by its multiset. */
  lemma {:induction false} SortedUnique(a: seq<(int, int)>, b: seq<(int, int)>)
    requires KeysSorted(a) && KeysSorted(b) && multiset(a) == multiset(b)
    ensures a == b
  {
    if a == [] {
      assert |multiset(b)| == 0;
    } else {
      assert |multiset(b)| > 0 by { Tail(a); }
      assert a[0] == b[0] by {
        Tail(a);
        Tail(b);
        FirstIsLeast(a, b[0]);
        FirstIsLeast(b, a[0]);
      }
      Tail(a);
      Tail(b);
      SortedUnique(a[1..], b[1..]);
    }
  }

  /** Which jobs a block moves away: kept ones stand in front of moved ones of the same key. */
  ghost predicate MovedLast<T>(s: seq<Item<T>>, blocked: set<int>, allowed: Option<T>) {
    forall i, j :: 0 <= i < j < |s| && Key(s[i]) == Key(s[j]) && MayRun(blocked, allowed, s[j]) ==> MayRun(blocked, allowed, s[i])
  }

  lemma {:induction false} PickTrivial<T>(s: seq<Item<T>>, blocked: set<int>, allowed: Option<T>, want: bool)
    requires AllMayRun(s, blocked, allowed, want)
    ensures Pick(s, blocked, allowed, want) == s && Pick(s, blocked, allowed, !want) == []
  {
    if s != [] {
      assert MayRun(blocked, allowed, s[0]) == want;
      PickTrivial(s[1..], blocked, allowed, want);
    }
  }

  /** Putting back one moved job, when those already back are not after it. */
  lemma PutBackOne<T>(s: seq<Item<T>>, x: Item<T>, b: set<int>, a: Option<T>)
    requires Sorted(s) && MovedLast(s, b, a) && !MayRun(b, a, x)
    requires forall i :: 0 <= i < |s| && !MayRun(b, a, s[i]) ==> Ordered(s[i], x)
    ensures var r := Insert(Unbounded, s, x);
      && Sorted(r) && MovedLast(r, b, a)
      && Pick(r, b, a, true) == Pick(s, b, a, true) && Pick(r, b, a, false) == Pick(s, b, a, false) + [x]
  {
    var k := Slot(Unbounded, s, x);
    SchedRuns.InsertSorted(s, x);
    SlotIsStrict(s, x);
    forall i | k <= i < |s| ensures MayRun(b, a, s[i]) {
      assert GoesBefore(Unbounded, x, s[i]);
    }
    PutBackMovedLast(s, x, k, b, a);
    PutBackPicks(s, x, k, b, a);
  }

  lemma SlotIsStrict<T>(s: seq<Item<T>>, x: Item<T>)
    requires Sorted(s)
    ensures forall i :: Slot(Unbounded, s, x) <= i < |s| ==> GoesBefore(Unbounded, x, s[i]) && Key(s[i]) != Key(x)
  {
    var k := Slot(Unbounded, s, x);
    forall i | k <= i < |s| ensures GoesBefore(Unbounded, x, s[i]) {
      if k < i { assert Ordered(s[k], s[i]); }
    }
  }

  lemma PutBackMovedLast<T>(s: seq<Item<T>>, x: Item<T>, k: nat, b: set<int>, a: Option<T>)
    requires MovedLast(s, b, a) && k <= |s| && !MayRun(b, a, x)
    requires forall i :: k <= i < |s| ==> Key(s[i]) != Key(x)
    ensures MovedLast(s[..k] + [x] + s[k..], b, a)
  {
    hide MayRun, Key;
    var r := s[..k] + [x] + s[k..];
    forall i | 0 <= i < |r| ensures r[i] == if i < k then s[i] else if i == k then x else s[i - 1] {}
  }

  lemma PutBackPicks<T>(s: seq<Item<T>>, x: Item<T>, k: nat, b: set<int>, a: Option<T>)
    requires k <= |s| && !MayRun(b, a, x)
    requires forall i :: k <= i < |s| ==> MayRun(b, a, s[i])
    ensures Pick(s[..k] + [x] + s[k..], b, a, true) == Pick(s, b, a, true)
    ensures Pick(s[..k] + [x] + s[k..], b, a, false) == Pick(s, b, a, false) + [x]
  {
    PickTrivial(s[k..], b, a, true);
    PickTrivial([x], b, a, false);
    hide MayRun, Pick;
    assert s == s[..k] + s[k..];
    PickConcat(s[..k], [x], b, a, true);
    PickConcat(s[..k], [x], b, a, false);
    PickConcat(s[..k] + [x], s[k..], b, a, true);
    PickConcat(s[..k] + [x], s[k..], b, a, false);
    PickConcat(s[..k], s[k..], b, a, true);
    PickConcat(s[..k], s[k..], b, a, false);
  }

  /** s holds no moved job whose turn is after one of todo's. */
  ghost predicate MovedBefore<T>(s: seq<Item<T>>, todo: seq<Item<T>>, b: set<int>, a: Option<T>) {
    forall i, j :: 0 <= i < |s| && 0 <= j < |todo| && !MayRun(b, a, s[i]) ==> Ordered(s[i], todo[j])
  }

  lemma MovedBeforeStep<T>(s: seq<Item<T>>, todo: seq<Item<T>>, b: set<int>, a: Option<T>)
    requires todo != [] && MovedBefore(s, todo, b, a) && Sorted(todo)
    ensures MovedBefore(Insert(Unbounded, s, todo[0]), todo[1..], b, a)
    ensures forall i :: 0 <= i < |s| && !MayRun(b, a, s[i]) ==> Ordered(s[i], todo[0])
    ensures Sorted(todo[1..])
  {
    var r, rest := Insert(Unbounded, s, todo[0]), todo[1..];
    hide MayRun;
    forall i, j | 0 <= i < |r| && 0 <= j < |rest| && !MayRun(b, a, r[i]) ensures Ordered(r[i], rest[j]) {
      assert rest[j] == todo[j + 1];
      if r[i] != todo[0] {
        var k := Slot(Unbounded, s, todo[0]);
        assert r[i] == s[if i < k then i else i - 1];
      }
    }
  }

  /** Putting back all moved jobs in their order. */
  lemma {:induction false} PutBackAll<T>(st: State<T>, todo: seq<Item<T>>, b: set<int>, a: Option<T>)
    requires Sorted(st.jobs) && MovedLast(st.jobs, b, a) && Sorted(todo) && AllMayRun(todo, b, a, false)
    requires MovedBefore(st.jobs, todo, b, a)
    requires forall j :: 0 <= j < |todo| ==> MayRun(st.blocked, st.allowed, todo[j]) && st.now <= todo[j].start
    ensures var r := Readmit(Unbounded, st, todo).jobs;
      && Sorted(r) && MovedLast(r, b, a)
      && Pick(r, b, a, true) == Pick(st.jobs, b, a, true) && Pick(r, b, a, false) == Pick(st.jobs, b, a, false) + todo
    decreases |todo|
  {
    hide Insert, Pick, Ordered, MovedLast, MovedBefore, MayRun, Sorted;
    if todo != [] {
      var x, rest := todo[0], todo[1..];
      MovedBeforeStep(st.jobs, todo, b, a);
      PutBackOne(st.jobs, x, b, a);
      assert Bump(Unbounded, st.now, x) == x && todo == [x] + rest;
      PutBackAll(Place(Unbounded, st, x), rest, b, a);
    }
  }

  lemma {:induction false} ReadmitQuiet<T>(c: Clock, st: State<T>, todo: seq<Item<T>>)
    requires !st.sync.external
    ensures Readmit(c, st, todo).sync == st.sync
    decreases |todo|
  {
    if todo != [] {
      ReadmitQuiet(c, Place(c, st, Bump(c, st.now, todo[0])), todo[1..]);
    }
  }

  function Undone<T(==)>(st: State<T>, groups: set<int>, except: Option<T>): State<T> {
    RestoreGroups(Unbounded, BlockGroups(st, groups, except), st.blocked, st.allowed)
  }

  /**
   * A block restored at once lists, besides the jobs that were listed, exactly the held jobs that
   * may run; none of those listed is lost.
   */
  lemma UndoneReleases<T>(st: State<T>, groups: set<int>, except: Option<T>)
    requires Ready(st)
    ensures var r := Undone(st, groups, except);
      && r.pending == Pick(st.pending, st.blocked, st.allowed, false)
      && r == st.(jobs := r.jobs, pending := r.pending, sync := r.sync) && (!st.sync.external ==> r.sync == st.sync)
      && multiset(Serials(r.jobs)) == multiset(Serials(st.jobs)) + multiset(Serials(Pick(st.pending, st.blocked, st.allowed, true)))
  {
    var b, s1 := st.blocked + groups, BlockGroups(st, groups, except);
    var moved := Pick(st.jobs, b, except, false);
    var s0 := s1.(blocked := st.blocked, allowed := st.allowed);
    PickMultiset(st.jobs, b, except);
    SerialsPick(st.jobs, b, except);
    assert AllMayRun(moved, st.blocked, st.allowed, true) && AllMayRun(s0.jobs, st.blocked, st.allowed, true) by {
      PickMembers(st.jobs, b, except, true);
      PickMembers(st.jobs, b, except, false);
    }
    ReleaseAll(s0, moved, st.pending);
    SweepNothing(Release(Unbounded, s0));
  }

  /** Releasing some held jobs, and then all of those just moved. */
  lemma ReleaseAll<T>(s0: State<T>, moved: seq<Item<T>>, held: seq<Item<T>>)
    requires s0.pending == held + moved
    requires AllMayRun(s0.jobs, s0.blocked, s0.allowed, true) && AllMayRun(moved, s0.blocked, s0.allowed, true)
    ensures var r := Release(Unbounded, s0);
      && r.pending == Pick(held, s0.blocked, s0.allowed, false)
      && r == s0.(jobs := r.jobs, pending := r.pending, sync := r.sync) && (!s0.sync.external ==> r.sync == s0.sync)
      && AllMayRun(r.jobs, s0.blocked, s0.allowed, true)
      && multiset(Serials(r.jobs))
        == multiset(Serials(s0.jobs)) + multiset(Serials(Pick(held, s0.blocked, s0.allowed, true))) + multiset(Serials(moved))
  {
    var released, kept := Pick(held, s0.blocked, s0.allowed, true), Pick(held, s0.blocked, s0.allowed, false);
    assert AllMayRun(released, s0.blocked, s0.allowed, true) by { PickAll(held, s0.blocked, s0.allowed, true); }
    PickTrivial(moved, s0.blocked, s0.allowed, true);
    PickConcat(held, moved, s0.blocked, s0.allowed, true);
    PickConcat(held, moved, s0.blocked, s0.allowed, false);
    SerialsConcat(released, moved);
    hide Pick, Serials, Readmit, MayRun;
    assert kept + [] == kept;
    var s1 := s0.(pending := kept);
    assert Release(Unbounded, s0) == Readmit(Unbounded, s1, released + moved);
    ReadmitKeeps(Unbounded, s1, released + moved);
    ReadmitSerials(Unbounded, s1, released + moved);
    ReadmitMayRun(s1, released + moved);
    if !s0.sync.external { ReadmitQuiet(Unbounded, s1, released + moved); }
  }

  lemma {:induction false} ReadmitMayRun<T>(st: State<T>, todo: seq<Item<T>>)
    requires AllMayRun(st.jobs, st.blocked, st.allowed, true) && AllMayRun(todo, st.blocked, st.allowed, true)
    ensures AllMayRun(Readmit(Unbounded, st, todo).jobs, st.blocked, st.allowed, true)
    decreases |todo|
  {
    if todo != [] {
      var x := Bump(Unbounded, st.now, todo[0]);
      assert MayRun(st.blocked, st.allowed, x);
      var r := Insert(Unbounded, st.jobs, x);
      hide MayRun;
      forall i | 0 <= i < |r| ensures MayRun(st.blocked, st.allowed, r[i]) {
        var k := Slot(Unbounded, st.jobs, x);
        assert r[i] == if i < k then st.jobs[i] else if i == k then x else st.jobs[i - 1];
      }
      ReadmitMayRun(Place(Unbounded, st, x), todo[1..]);
    }
  }

  lemma PickMembers<T>(s: seq<Item<T>>, b: set<int>, a: Option<T>, want: bool)
    ensures forall i :: 0 <= i < |Pick(s, b, a, want)| ==> Pick(s, b, a, want)[i] in s
  {
    PickAll(s, b, a, want);
  }

  /**
   * A block restored at once leaves the same jobs listed and on hold if and only if no held job may
   * run. Then the list has the same sequence of (start, priority), the kept and the moved jobs each
   * in their old order, and moved jobs behind kept ones only among ties. With an external scheduler
   * only the requests made for moved jobs can differ.
   */
  lemma BlockThenRestore<T>(st: State<T>, groups: set<int>, except: Option<T>)
    requires Ready(st)
    ensures var r := Undone(st, groups, except);
      (multiset(r.jobs) == multiset(st.jobs) && r.pending == st.pending) <==> AllMayRun(st.pending, st.blocked, st.allowed, false)
    ensures AllMayRun(st.pending, st.blocked, st.allowed, false) ==>
      var r := Undone(st, groups, except);
      var b := st.blocked + groups;
      && r == st.(jobs := r.jobs, sync := r.sync) && (!st.sync.external ==> r.sync == st.sync)
      && Keys(r.jobs) == Keys(st.jobs)
      && Pick(r.jobs, b, except, true) == Pick(st.jobs, b, except, true)
      && Pick(r.jobs, b, except, false) == Pick(st.jobs, b, except, false)
      && MovedLast(r.jobs, b, except)
  {
    UndoneReleases(st, groups, except);
    var r := Undone(st, groups, except);
    if AllMayRun(st.pending, st.blocked, st.allowed, false) {
      UndoneExactly(st, groups, except);
    } else if r.pending == st.pending {
      PickAll(st.pending, st.blocked, st.allowed, false);
      assert false;
    }
  }

  lemma UndoneExactly<T>(st: State<T>, groups: set<int>, except: Option<T>)
    requires Ready(st) && AllMayRun(st.pending, st.blocked, st.allowed, false)
    ensures var r := Undone(st, groups, except);
      var b := st.blocked + groups;
      && r.pending == st.pending
      && multiset(r.jobs) == multiset(st.jobs) && Keys(r.jobs) == Keys(st.jobs)
      && Pick(r.jobs, b, except, true) == Pick(st.jobs, b, except, true)
      && Pick(r.jobs, b, except, false) == Pick(st.jobs, b, except, false)
      && MovedLast(r.jobs, b, except)
  {
    var b := st.blocked + groups;
    var kept, moved := Pick(st.jobs, b, except, true), Pick(st.jobs, b, except, false);
    PickAll(st.jobs, b, except, true);
    PickAll(st.jobs, b, except, false);
    PickSorted(st.jobs, b, except, true);
    PickSorted(st.jobs, b, except, false);
    PickTrivial(kept, b, except, true);
    BlockedRelease(st, moved, BlockGroups(st, groups, except));
    PickMultiset(st.jobs, b, except);
    PutBack(st.(jobs := kept), moved, b, except, st.jobs);
  }

  /** A job put on hold by one block and allowed by the next. */
  function HeldAndAllowed(): State<int> {
    State(0, [], [Item(1, 0, 10, 0, 1)], {1}, Some(1), 1, Sync(false, false, false, 0, false, 0, []))
  }

  lemma HeldAndAllowedIsReached()
    ensures var ops := [Op<int>.AddJob(1, 10, 0, 1), Op.Block({1}, None), Op.Block({1}, Some(1))];
      LegalRun(Unbounded, Start<int>(0), ops) && Execute(Unbounded, Start<int>(0), ops).st == HeldAndAllowed()
  {
    var add, hold, allow := Op<int>.AddJob(1, 10, 0, 1), Op<int>.Block({1}, None), Op<int>.Block({1}, Some(1));
    var x := Item(1, 0, 10, 0, 1);
    var t0 := Start<int>(0);
    var t1 := Step(Unbounded, t0, add);
    assert t1.st == t0.st.(jobs := [x], adds := 1);
    var t2 := Step(Unbounded, t1, hold);
    assert t1.st.blocked + {1} == {1} && !MayRun({1}, None, x);
    assert Pick([x], {1}, None, true) == [] && Pick([x], {1}, None, false) == [x];
    assert t2.st == t1.st.(jobs := [], pending := [x], blocked := {1});
    var t3 := Step(Unbounded, t2, allow);
    assert t2.st.blocked + {1} == {1};
    assert t3.st == HeldAndAllowed();
    hide Step, HeldAndAllowed;
    var ops := [add, hold, allow];
    assert ops[1..] == [hold, allow] && [hold, allow][1..] == [allow] && [allow][1..] == [];
  }

  /** There a block of another group, undone at once, lists the job. */
  lemma UndoneBlockReleases()
    ensures var st := HeldAndAllowed(); var r := Undone(st, {2}, None);
      Ready(st) && st.jobs == [] && r.jobs == st.pending && r.pending == []
  {
    var st, x := HeldAndAllowed(), Item(1, 0, 10, 0, 1);
    var s1 := BlockGroups(st, {2}, None);
    assert s1.jobs == [] && s1.pending == [x];
    var s0 := s1.(blocked := st.blocked, allowed := st.allowed);
    assert Release(Unbounded, s0) == Place(Unbounded, s0.(pending := []), x);
    assert Place(Unbounded, s0.(pending := []), x).jobs == [x];
    hide Release, Place;
  }

  /** Readmitting the moved jobs among the kept ones, and the sweep that ends the restore. */
  lemma PutBack<T>(st: State<T>, moved: seq<Item<T>>, b: set<int>, a: Option<T>, was: seq<Item<T>>)
    requires Sorted(st.jobs) && AllMayRun(st.jobs, b, a, true) && Sorted(moved) && AllMayRun(moved, b, a, false)
    requires forall j :: 0 <= j < |moved| ==> MayRun(st.blocked, st.allowed, moved[j]) && st.now <= moved[j].start
    requires Sorted(was) && AllMayRun(was, st.blocked, st.allowed, true) && multiset(was) == multiset(st.jobs) + multiset(moved)
    ensures var r := Sweep(Readmit(Unbounded, st, moved));
      && r.pending == st.pending
      && multiset(r.jobs) == multiset(was) && Keys(r.jobs) == Keys(was)
      && Pick(r.jobs, b, a, true) == st.jobs && Pick(r.jobs, b, a, false) == moved
      && MovedLast(r.jobs, b, a)
  {
    hide MovedLast, MovedBefore, Sorted, AllMayRun, MayRun;
    KeptOnly(st.jobs, moved, b, a);
    var r := Readmit(Unbounded, st, moved);
    assert r == st.(jobs := r.jobs, sync := r.sync) by { ReadmitKeeps(Unbounded, st, moved); }
    PickTrivial(st.jobs, b, a, true);
    assert [] + moved == moved;
    PutBackAll(st, moved, b, a);
    PickMultiset(r.jobs, b, a);
    hide Pick, Readmit;
    SameKeys(r.jobs, was);
    StillMayRun(r.jobs, was, st.blocked, st.allowed);
    SweepNothing(r);
  }

  lemma KeptOnly<T>(s: seq<Item<T>>, todo: seq<Item<T>>, b: set<int>, a: Option<T>)
    requires AllMayRun(s, b, a, true)
    ensures MovedLast(s, b, a) && MovedBefore(s, todo, b, a)
  {
  }

  lemma StillMayRun<T>(s: seq<Item<T>>, was: seq<Item<T>>, b: set<int>, a: Option<T>)
    requires AllMayRun(was, b, a, true) && multiset(s) == multiset(was)
    ensures AllMayRun(s, b, a, true)
  {
    forall i | 0 <= i < |s| ensures MayRun(b, a, s[i]) {
      assert s[i] in multiset(s);
      assert s[i] in was;
    }
  }

  lemma SweepNothing<T>(st: State<T>)
    requires AllMayRun(st.jobs, st.blocked, st.allowed, true)
    ensures Sweep(st) == st
  {
    PickTrivial(st.jobs, st.blocked, st.allowed, true);
    assert st.pending + [] == st.pending;
  }

  /** The restore finds on hold what was there before, and then the jobs just moved. */
  lemma BlockedRelease<T>(st: State<T>, moved: seq<Item<T>>, s1: State<T>)
    requires AllMayRun(st.pending, st.blocked, st.allowed, false) && AllMayRun(moved, st.blocked, st.allowed, true)
    requires s1.pending == st.pending + moved
    ensures var s0 := s1.(blocked := st.blocked, allowed := st.allowed);
      Release(Unbounded, s0) == Readmit(Unbounded, s0.(pending := st.pending), moved)
  {
    PickTrivial(st.pending, st.blocked, st.allowed, false);
    PickTrivial(moved, st.blocked, st.allowed, true);
    PickConcat(st.pending, moved, st.blocked, st.allowed, true);
    PickConcat(st.pending, moved, st.blocked, st.allowed, false);
    assert st.pending + [] == st.pending && [] + moved == moved;
  }

  lemma {:induction false} PickMultiset<T>(s: seq<Item<T>>, b: set<int>, a: Option<T>)
    ensures multiset(s) == multiset(Pick(s, b, a, true)) + multiset(Pick(s, b, a, false))
  {
    if s != [] {
      PickMultiset(s[1..], b, a);
      assert s == [s[0]] + s[1..];
    }
  }

  lemma KeysRemove<T>(r: seq<Item<T>>, k: nat)
    requires k < |r|
    ensures multiset(Keys(r[..k] + r[k + 1..])) + multiset{Key(r[k])} == multiset(Keys(r))
    ensures multiset(r[..k] + r[k + 1..]) + multiset{r[k]} == multiset(r)
  {
    var a, b := r[..k], r[k + 1..];
    assert r == a + [r[k]] + b;
    assert Keys(a + b) == Keys(a) + Keys(b);
    assert Keys(r) == Keys(a) + [Key(r[k])] + Keys(b);
  }

  lemma {:induction false} KeysMultiset<T>(s: seq<Item<T>>, r: seq<Item<T>>)
    requires multiset(s) == multiset(r)
    ensures multiset(Keys(s)) == multiset(Keys(r))
    decreases |s|
  {
    if s == [] {
      assert |multiset(r)| == 0;
    } else {
      assert s[0] in multiset(s);
      var k :| 0 <= k < |r| && r[k] == s[0];
      hide Keys, Key;
      KeysRemove(s, 0);
      KeysRemove(r, k);
      assert s[..0] + s[1..] == s[1..];
      var t := r[..k] + r[k + 1..];
      assert multiset(t) == multiset(r) - multiset{r[k]} && multiset(s[1..]) == multiset(s) - multiset{s[0]};
      KeysMultiset(s[1..], t);
    }
  }

  lemma SameKeys<T>(s: seq<Item<T>>, r: seq<Item<T>>)
    requires Sorted(s) && Sorted(r) && multiset(s) == multiset(r)
    ensures Keys(s) == Keys(r)
  {
    KeysMultiset(s, r);
    forall i, j | 0 <= i < j < |s| ensures KeyLe(Keys(s)[i], Keys(s)[j]) { assert Ordered(s[i], s[j]); }
    forall i, j | 0 <= i < j < |r| ensures KeyLe(Keys(r)[i], Keys(r)[j]) { assert Ordered(r[i], r[j]); }
    SortedUnique(Keys(s), Keys(r));
  }
}
