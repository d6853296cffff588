/** The scheduler object of sched.c: two intrusive rings, the clock, and the block and integration state. */
module Scheduler {
  import opened Clock
  import opened Common
  import opened Ring
  import opened SchedState

  ghost function ItemOf(j: Job): Item<Job>
    reads j
  {
    Item(j, j.serial, j.start, j.priority, j.group)
  }

  ghost function AsOption(job: Job?): Option<Job> {
    if job == null then None else Some(job)
  }

  ghost function Items(s: seq<Job>): (r: seq<Item<Job>>)
    reads s
    ensures |r| == |s|
    ensures forall i :: 0 <= i < |s| ==> r[i] == ItemOf(s[i])
  {
    seq(|s|, i requires 0 <= i < |s| reads s => ItemOf(s[i]))
  }

  lemma ItemsInserted(s: seq<Job>, k: nat, job: Job)
    requires k <= |s|
    ensures Items(s[..k] + [job] + s[k..]) == Items(s)[..k] + [ItemOf(job)] + Items(s)[k..]
  {
    hide Items;
    var t, u := s[..k] + [job] + s[k..], Items(s)[..k] + [ItemOf(job)] + Items(s)[k..];
    forall i | 0 <= i < |t| ensures Items(t)[i] == u[i] {
      if k < i { assert t[i] == s[i - 1]; }
    }
  }

  lemma ItemsAppended(s: seq<Job>, job: Job)
    ensures Items(s + [job]) == Items(s) + [ItemOf(job)]
  {
    hide Items;
  }

  lemma ItemsRemoved(s: seq<Job>, k: nat)
    requires k < |s|
    ensures Items(s[..k] + s[k + 1..]) == Items(s)[..k] + Items(s)[k + 1..]
  {
    hide Items;
  }

  twostate lemma ItemsSame(s: seq<Job>)
    requires forall i :: 0 <= i < |s| ==> ItemOf(s[i]) == old(ItemOf(s[i]))
    ensures Items(s) == old(Items(s))
  {
  }

  twostate lemma ListSame(l: List)
    requires old(l.Valid()) && unchanged(l) && unchanged(l.nodes)
    ensures l.Valid()
  {
  }

  /** A job with null links is on no list. */
  lemma Off(l: List, job: Job)
    requires l.Valid() && job.next == null
    ensures job !in l.nodes && forall i :: 0 <= i < |l.elems| ==> l.elems[i] != job
  {
  }

  lemma Inside(l: List, k: nat)
    requires l.Valid() && k < |l.elems|
    ensures l.elems[k] in l.nodes
  {
  }

  class Scheduler {
    const joblist: List
    const pendingJobs: List
    var now: u64
    var allowedJob: Job?
    /** The 32-bit mask of blocked groups, as the set of its bit numbers. */
    var blockedGroups: set<nat>

    /** Whether the hooks to an external scheduler are set. */
    var external: bool
    var waiting: bool
    var nextSyncSet: bool
    var nextSync: u64
    var prevSyncSet: bool
    var prevSync: u64

    ghost var adds: nat
    ghost var requests: seq<int>

    ghost predicate Valid()
      reads this, joblist, pendingJobs, Nodes()
    {
      && joblist != pendingJobs && joblist.nodes !! pendingJobs.nodes
      && joblist.Valid() && pendingJobs.Valid()
    }

    ghost function Nodes(): set<Job>
      reads this, joblist, pendingJobs
    {
      joblist.nodes + pendingJobs.nodes
    }

    ghost function View(): State<Job>
      requires Valid()
      reads this, joblist, pendingJobs, Nodes()
    {
      State(now, Items(joblist.elems), Items(pendingJobs.elems), blockedGroups,
            AsOption(allowedJob), adds, SyncView())
    }

    ghost function SyncView(): Sync
      reads this
    {
      Sync(external, waiting, nextSyncSet, nextSync, prevSyncSet, prevSync, requests)
    }

    lemma ViewReads()
      requires Valid()
      ensures |View().jobs| == |joblist.elems| && forall i :: 0 <= i < |joblist.elems| ==> View().jobs[i] == ItemOf(joblist.elems[i])
      ensures |View().pending| == |pendingJobs.elems| && forall i :: 0 <= i < |pendingJobs.elems| ==> View().pending[i] == ItemOf(pendingJobs.elems[i])
      ensures View().blocked == blockedGroups && View().allowed == AsOption(allowedJob)
      ensures View().now == now
    {
      hide List.Valid, Items;
    }

    /** USFSTL_SCHEDULER: both lists empty, everything else zero. */
    constructor ()
      ensures Valid() && fresh(Nodes()) && fresh(joblist) && fresh(pendingJobs)
      ensures View() == State(0, [], [], {}, None, 0, Sync(false, false, false, 0, false, 0, []))
    {
      joblist := new List();
      pendingJobs := new List();
      now, allowedJob, blockedGroups := 0, null, {};
      external, waiting, nextSyncSet, nextSync, prevSyncSet, prevSync := false, false, false, 0, false, 0;
      adds, requests := 0, [];
    }

    /**
     * usfstl_sched_external_request: the caller waits unless it may run freely up to a bound that is
     * later. A time that is waited for is asked for, unless it is the one asked for last.
     */
    method ExternalRequest(time: u64) returns (wait: bool)
      modifies this`prevSync, this`prevSyncSet, this`requests
      ensures wait <==> external && (waiting || !nextSyncSet || !(0 < Gap(Wrapping, time, nextSync)))
      ensures if wait && !(old(prevSyncSet) && time == old(prevSync)) then
          requests == old(requests) + [time] && prevSync == time && prevSyncSet
        else
          requests == old(requests) && prevSync == old(prevSync) && prevSyncSet == old(prevSyncSet)
      ensures (wait, SyncView()) == Request(Wrapping, old(SyncView()), time)
    {
      if !external { return false; }
      if !waiting && nextSyncSet && Earlier(Wrapping, time, nextSync) { return false; }
      if prevSyncSet && time == prevSync { return true; }
      prevSync := time;
      prevSyncSet := true;
      requests := requests + [time];
      return true;
    }

    /** The insertion loop of usfstl_sched_add_job: the first listed job that x goes before, if any. */
    method FindSlot(job: Job) returns (tmp: Job?, ghost k: nat)
      requires Valid()
      ensures k == Slot(Wrapping, View().jobs, ItemOf(job))
      ensures tmp == if k < |joblist.elems| then joblist.elems[k] else null
    {
      hide List.Valid, Items;
      ghost var items, x := Items(joblist.elems), ItemOf(job);
      tmp := joblist.NextItem(joblist.head, 0);
      k := 0;
      while tmp != null
        invariant k <= |items| && tmp == if k < |items| then joblist.elems[k] else null
        invariant forall i :: 0 <= i < k ==> !GoesBefore(Wrapping, x, items[i])
        decreases |items| - k
      {
        if Later(Wrapping, tmp.start, job.start) { break; }
        if tmp.start == job.start && tmp.priority < job.priority { break; }
        k := k + 1;
        tmp := joblist.NextItem(tmp, k);
      }
      SlotIs(Wrapping, items, x, k);
    }

    /** Puts an unlisted job where the insertion loop stopped. */
    method InsertSorted(job: Job)
      requires Valid() && job.next == null
      modifies joblist, joblist.nodes`next, joblist.nodes`prev, job`next, job`prev
      ensures Valid() && joblist.nodes == old(joblist.nodes) + {job} && pendingJobs.nodes == old(pendingJobs.nodes)
      ensures View() == old(View()).(jobs := Insert(Wrapping, old(View()).jobs, ItemOf(job)))
    {
      hide List.Valid, Items, AsOption;
      Off(joblist, job);
      Off(pendingJobs, job);
      var tmp, k := FindSlot(job);
      ghost var s := joblist.elems;
      if tmp == null {
        joblist.Append(job);
        assert joblist.elems == s[..k] + [job] + s[k..];
      } else {
        joblist.InsertBefore(tmp, job, k);
      }
      ItemsSame(s);
      ItemsInserted(s, k, job);
      ItemsSame(pendingJobs.elems);
      ListSame(pendingJobs);
    }

    /** Appends an unlisted job to the pending list. */
    method AppendPending(job: Job)
      requires Valid() && job.next == null
      modifies pendingJobs, pendingJobs.nodes`next, pendingJobs.nodes`prev, job`next, job`prev
      ensures Valid() && pendingJobs.nodes == old(pendingJobs.nodes) + {job} && joblist.nodes == old(joblist.nodes)
      ensures View() == old(View()).(pending := old(View()).pending + [ItemOf(job)])
    {
      hide List.Valid, Items;
      Off(joblist, job);
      Off(pendingJobs, job);
      ghost var s := pendingJobs.elems;
      pendingJobs.Append(job);
      ItemsSame(s);
      ItemsAppended(s, job);
      ItemsSame(joblist.elems);
      ListSame(joblist);
    }

    /** Sets fields of a job that is on no list. */
    method Stamp(job: Job, start: u64, ghost serial: nat)
      requires Valid() && job.next == null
      modifies job`start, job`serial
      ensures Valid() && View() == old(View())
      ensures ItemOf(job) == old(ItemOf(job)).(start := start, serial := serial)
    {
      hide List.Valid, Items;
      Off(joblist, job);
      Off(pendingJobs, job);
      job.start := start;
      job.serial := serial;
      ItemsSame(joblist.elems);
      ItemsSame(pendingJobs.elems);
      ListSame(joblist);
      ListSame(pendingJobs);
    }

    /** usfstl_sched_add_job once its assertions hold; the serial number is the caller's. */
    method Enlist(job: Job, ghost serial: nat)
      requires Valid() && job.next == null
      modifies joblist, pendingJobs, Nodes()`next, Nodes()`prev, job`next, job`prev, job`start, job`serial
      modifies this`prevSync, this`prevSyncSet, this`requests
      ensures Valid() && Nodes() == old(Nodes()) + {job}
      ensures View() == Place(Wrapping, old(View()), old(ItemOf(job)).(serial := serial))
    {
      if job.group in blockedGroups && job != allowedJob {
        HoldBack(job, serial);
      } else {
        ListInOrder(job, serial);
      }
    }

    /** A job that may not run goes to the end of the other list, with its start cleared. */
    method HoldBack(job: Job, ghost serial: nat)
      requires Valid() && job.next == null
      modifies pendingJobs, pendingJobs.nodes`next, pendingJobs.nodes`prev, job`next, job`prev, job`start, job`serial
      ensures Valid() && Nodes() == old(Nodes()) + {job}
      ensures View() == old(View()).(pending := old(View()).pending + [old(ItemOf(job)).(start := 0, serial := serial)])
    {
      hide List.Valid, Items;
      Stamp(job, 0, serial);
      AppendPending(job);
    }

    /** A job that may run is inserted in order and requested. */
    method ListInOrder(job: Job, ghost serial: nat)
      requires Valid() && job.next == null
      modifies joblist, joblist.nodes`next, joblist.nodes`prev, job`next, job`prev, job`start, job`serial
      modifies this`prevSync, this`prevSyncSet, this`requests
      ensures Valid() && Nodes() == old(Nodes()) + {job}
      ensures var x := old(ItemOf(job)).(serial := serial);
        View() == old(View()).(jobs := Insert(Wrapping, old(View()).jobs, x), sync := Request(Wrapping, old(View()).sync, x.start).1)
    {
      hide List.Valid, Items, Insert, Request;
      Stamp(job, job.start, serial);
      InsertSorted(job);
      var _ := ExternalRequest(job.start);
    }

    /** usfstl_sched_add_job */
    method AddJob(job: Job)
      requires Valid()
      requires NotEarlier(Wrapping, job.start, now) && job.next == null && job.group < 32
      modifies joblist, pendingJobs, Nodes()`next, Nodes()`prev, job`next, job`prev, job`start, job`serial
      modifies this`prevSync, this`prevSyncSet, this`requests, this`adds
      ensures Valid() && Nodes() == old(Nodes()) + {job}
      ensures View() == Add(Wrapping, old(View()), job, old(job.start), old(job.priority), old(job.group))
    {
      hide List.Valid, Items;
      Enlist(job, adds);
      adds := adds + 1;
    }

    /** Takes a job off whichever of the two lists it is on. */
    method Unlink(job: Job, ghost l: List, ghost k: nat)
      requires Valid() && (l == joblist || l == pendingJobs)
      requires k < |l.elems| && l.elems[k] == job
      modifies l, l.nodes`next, l.nodes`prev
      ensures Valid() && l.nodes == old(l.nodes) - {job} && Nodes() == old(Nodes()) - {job} && job.next == null
      ensures View() == if l == joblist
        then old(View()).(jobs := old(View()).jobs[..k] + old(View()).jobs[k + 1..])
        else old(View()).(pending := old(View()).pending[..k] + old(View()).pending[k + 1..])
    {
      hide List.Valid, Items;
      ghost var s, other := l.elems, if l == joblist then pendingJobs else joblist;
      Inside(l, k);
      RemoveItem(job, l, k);
      ItemsSame(s);
      ItemsRemoved(s, k);
      ItemsSame(other.elems);
      ListSame(other);
    }

    /** No job is listed twice. */
    lemma ListedOnce()
      requires Valid()
      ensures forall i, k :: 0 <= i < k < |joblist.elems| ==> View().jobs[i].job != View().jobs[k].job
      ensures forall i, k :: 0 <= i < k < |pendingJobs.elems| ==> View().pending[i].job != View().pending[k].job
      ensures forall i, k :: 0 <= i < |joblist.elems| && 0 <= k < |pendingJobs.elems| ==> View().jobs[i].job != View().pending[k].job
    {
    }

    /** usfstl_sched_del_job, for a job of this scheduler or one that is not scheduled */
    method DelJob(job: Job)
      requires Valid()
      requires job.next != null ==> job in joblist.elems || job in pendingJobs.elems
      modifies joblist, pendingJobs, Nodes()`next, Nodes()`prev
      ensures Valid() && View() == Del(old(View()), job)
      ensures Nodes() == old(Nodes()) - {job} && job.next == null
    {
      hide List.Valid, Items;
      ghost var st := View();
      ListedOnce();
      if job.next == null {
        Off(joblist, job);
        Off(pendingJobs, job);
        WithoutAbsent(st.jobs, job);
        WithoutAbsent(st.pending, job);
        return;
      }
      ghost var l := if job in joblist.elems then joblist else pendingJobs;
      ghost var k :| 0 <= k < |l.elems| && l.elems[k] == job;
      Unlink(job, l, k);
      if l == joblist {
        WithoutAt(st.jobs, k);
        WithoutAbsent(st.pending, job);
      } else {
        WithoutAt(st.pending, k);
        WithoutAbsent(st.jobs, job);
      }
    }

    /** _usfstl_sched_set_time; the time_advanced hook only logs */
    method SetTimeTo(time: u64)
      requires Valid() && (time == now || NotEarlier(Wrapping, time, now))
      modifies this`now
      ensures Valid() && View() == old(View()).(now := time)
    {
      hide List.Valid, Items;
      now := time;
      ItemsSame(joblist.elems);
      ItemsSame(pendingJobs.elems);
    }

    /** usfstl_sched_set_sync_time */
    method SetSyncTime(time: u64)
      requires Valid() && NotEarlier(Wrapping, time, now)
      modifies this`nextSync, this`nextSyncSet
      ensures Valid() && View() == old(View()).(sync := old(SyncView()).(next := time, nextSet := true))
    {
      hide List.Valid, Items;
      nextSync := time;
      nextSyncSet := true;
    }

    /** usfstl_sched_next up to the call of the job's callback, without an external scheduler */
    method Next() returns (job: Job)
      requires Valid() && !external && View().jobs != []
      modifies this`now, joblist, joblist.nodes`next, joblist.nodes`prev
      ensures Valid() && View() == RunFirst(Wrapping, old(View()))
      ensures job == old(View()).jobs[0].job && job.next == null
      ensures joblist.nodes == old(joblist.nodes) - {job} && pendingJobs.nodes == old(pendingJobs.nodes)
    {
      hide List.Valid, Items, Gap, AsOption, SyncView;
      var first := joblist.NextItem(joblist.head, 0);
      job := first;
      LaterIsNotEarlier(Wrapping, job.start, now);
      if Later(Wrapping, job.start, now) {
        SetTimeTo(job.start);
      }
      Unlink(job, joblist, 0);
    }

    /** usfstl_sched_block_job */
    method BlockJob(job: Job, ghost k: nat)
      requires Valid() && k < |joblist.elems| && joblist.elems[k] == job
      modifies joblist, pendingJobs, Nodes()`next, Nodes()`prev
      ensures Valid() && Nodes() == old(Nodes())
      ensures View() == BlockAt(old(View()), k)
    {
      hide List.Valid, Items;
      Inside(joblist, k);
      ghost var x := ItemOf(job);
      Unlink(job, joblist, k);
      AppendPending(job);
    }

    /** The sweep's look at its i-th job. */
    method SweepOne(job: Job, ghost st: State<Job>, ghost i: nat)
      requires Valid() && i < |st.jobs| && job == st.jobs[i].job && View() == Swept(st, i)
      modifies joblist, pendingJobs, Nodes()`next, Nodes()`prev
      ensures Valid() && Nodes() == old(Nodes()) && View() == Swept(st, i + 1)
    {
      hide Swept, SweepIndex, View;
      SweptStep(st, i);
      ViewReads();
      if job != allowedJob && job.group in blockedGroups {
        BlockJob(job, SweepIndex(st, i));
      }
    }

    /** The job the sweep looks at after its i-th. */
    method SweepNext(job: Job, ghost st: State<Job>, ghost i: nat) returns (next: Job?)
      requires Valid() && i < |st.jobs| && job == st.jobs[i].job && View() == Swept(st, i)
      ensures next == if i + 1 < |st.jobs| then st.jobs[i + 1].job else null
    {
      hide Swept, SweepIndex, View;
      SweptStep(st, i);
      SweptRest(st, i);
      ViewReads();
      next := joblist.NextItem(job, SweepIndex(st, i) + 1);
    }

    /** usfstl_sched_remove_blocked_jobs */
    method RemoveBlockedJobs()
      requires Valid()
      modifies joblist, pendingJobs, Nodes()`next, Nodes()`prev
      ensures Valid() && Nodes() == old(Nodes())
      ensures View() == Sweep(old(View()))
    {
      hide List.Valid, Items, Swept, SweepIndex, View, Sweep;
      ghost var st, i := View(), 0;
      SweptEnds(st);
      ViewReads();
      var job := joblist.NextItem(joblist.head, 0);
      var next := null;
      if job != null { next := SweepNext(job, st, 0); }
      while job != null
        invariant Valid() && Nodes() == old(Nodes())
        invariant i <= |st.jobs| && View() == Swept(st, i)
        invariant job == if i < |st.jobs| then st.jobs[i].job else null
        invariant next == if i + 1 < |st.jobs| then st.jobs[i + 1].job else null
        decreases |st.jobs| - i
      {
        SweepOne(job, st, i);
        i := i + 1;
        job := next;
        if job != null { next := SweepNext(job, st, i); }
      }
    }

    /** usfstl_sched_restore_job */
    method RestoreJob(job: Job, ghost k: nat)
      requires Valid() && k < |pendingJobs.elems| && pendingJobs.elems[k] == job
      modifies joblist, pendingJobs, Nodes()`next, Nodes()`prev, job`start, job`serial
      modifies this`prevSync, this`prevSyncSet, this`requests
      ensures Valid() && Nodes() == old(Nodes())
      ensures View() == RestoreAt(Wrapping, old(View()), k)
    {
      hide List.Valid, Items;
      Inside(pendingJobs, k);
      ghost var x := ItemOf(job);
      Unlink(job, pendingJobs, k);
      if Earlier(Wrapping, job.start, now) {
        Stamp(job, now, job.serial);
      }
      Enlist(job, job.serial);
    }

    /** The release's look at its i-th pending job. */
    method ReleaseOne(job: Job, ghost st: State<Job>, ghost i: nat)
      requires Valid() && i < |st.pending| && job == st.pending[i].job && View() == Released(Wrapping, st, i)
      modifies joblist, pendingJobs, Nodes()`next, Nodes()`prev, Nodes()`start, Nodes()`serial
      modifies this`prevSync, this`prevSyncSet, this`requests
      ensures Valid() && Nodes() == old(Nodes()) && View() == Released(Wrapping, st, i + 1)
    {
      hide Released, ReleaseIndex, View;
      ReleasedStep(Wrapping, st, i);
      ViewReads();
      if job == allowedJob || job.group !in blockedGroups {
        RestoreJob(job, ReleaseIndex(st, i));
      }
    }

    /** The pending job the release looks at after its i-th. */
    method ReleaseNext(job: Job, ghost st: State<Job>, ghost i: nat) returns (next: Job?)
      requires Valid() && i < |st.pending| && job == st.pending[i].job && View() == Released(Wrapping, st, i)
      ensures next == if i + 1 < |st.pending| then st.pending[i + 1].job else null
    {
      hide Released, ReleaseIndex, View;
      ReleasedStep(Wrapping, st, i);
      ReleasedRest(Wrapping, st, i);
      ViewReads();
      next := pendingJobs.NextItem(job, ReleaseIndex(st, i) + 1);
    }

    /** usfstl_sched_restore_blocked_jobs */
    method RestoreBlockedJobs()
      requires Valid()
      modifies joblist, pendingJobs, Nodes()`next, Nodes()`prev, Nodes()`start, Nodes()`serial
      modifies this`prevSync, this`prevSyncSet, this`requests
      ensures Valid() && Nodes() == old(Nodes())
      ensures View() == Release(Wrapping, old(View()))
    {
      hide List.Valid, Items, Released, ReleaseIndex, View, Release;
      ghost var st, i := View(), 0;
      ReleasedEnds(Wrapping, st);
      ViewReads();
      var job := pendingJobs.NextItem(pendingJobs.head, 0);
      var next := null;
      if job != null { next := ReleaseNext(job, st, 0); }
      while job != null
        invariant Valid() && Nodes() == old(Nodes())
        invariant i <= |st.pending| && View() == Released(Wrapping, st, i)
        invariant job == if i < |st.pending| then st.pending[i].job else null
        invariant next == if i + 1 < |st.pending| then st.pending[i + 1].job else null
        decreases |st.pending| - i
      {
        ReleaseOne(job, st, i);
        i := i + 1;
        job := next;
        if job != null { next := ReleaseNext(job, st, i); }
      }
    }

    /** usfstl_sched_block_groups; `saved` is the caller's save data */
    method BlockGroups(groups: set<nat>, job: Job?) returns (savedGroups: set<nat>, savedJob: Job?)
      requires Valid() && (job != null ==> job.group in groups)
      modifies joblist, pendingJobs, Nodes()`next, Nodes()`prev, this`blockedGroups, this`allowedJob
      ensures Valid() && Nodes() == old(Nodes())
      ensures savedGroups == old(blockedGroups) && savedJob == old(allowedJob)
      ensures View() == SchedState.BlockGroups(old(View()), groups, AsOption(job))
    {
      hide List.Valid, Items;
      savedGroups, savedJob := blockedGroups, allowedJob;
      blockedGroups := blockedGroups + groups;
      allowedJob := job;
      ItemsSame(joblist.elems);
      ItemsSame(pendingJobs.elems);
      RemoveBlockedJobs();
    }

    /** usfstl_sched_restore_groups */
    method RestoreGroups(groups: set<nat>, job: Job?)
      requires Valid()
      modifies joblist, pendingJobs, Nodes()`next, Nodes()`prev, Nodes()`start, Nodes()`serial
      modifies this`prevSync, this`prevSyncSet, this`requests, this`blockedGroups, this`allowedJob
      ensures Valid() && Nodes() == old(Nodes())
      ensures View() == SchedState.RestoreGroups(Wrapping, old(View()), groups, AsOption(job))
    {
      hide List.Valid, Items;
      blockedGroups := groups;
      allowedJob := job;
      ItemsSame(joblist.elems);
      ItemsSame(pendingJobs.elems);
      RestoreBlockedJobs();
      RemoveBlockedJobs();
    }
  }
}
