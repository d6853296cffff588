# wmediumd, modelled and proved in Dafny

wmediumd simulates a wireless medium as a sequence of timed events. This project models the parts of
it that are hard to get right and proves what they promise, over every run and every input:

* the event scheduler: a stable priority queue on an intrusive circular list, on 64-bit time that
  wraps, with groups of jobs that can be blocked and restored, and with schedulers linked to a parent;
* the medium: one frame queue per station and access category, the air-time reservation that looks
  only at queue tails, the retry loop, and the agreement of all queues with the scheduler's job list;
* the virtqueue device: free-running 16-bit ring indices, chains gathered in two passes, kicks and the
  interrupt job, copying to and from memory segments, and the sending of replies;
* the packet error rate, over exact reals;
* the time-travel protocol client: conversions with different rounding, and what the calendar may rely on;
* the link matrix that a configuration file describes.

What the source updates in place is a class or a method here (`Ring`, `Scheduler`, `Context`,
`Controller`, `Device`, `Buf`, and the array methods of `Retry`, `PacketError`, `Iov`, `Reply` and
`LinkMatrix`). Each is proved equal to a function on values. Properties of whole runs are proved about
those functions.

## Reading order

| file | contents |
|---|---|
| `Common.dfy`, `Clock.dfy`, `SchedState.dfy` | shared definitions; time comparison; the scheduler's state as a value and what each operation makes of it |
| `Ring.dfy`, `Scheduler.dfy` | the intrusive list and the scheduler on it |
| `SchedRuns.dfy`, `WrapRefinement.dfy`, `Groups.dfy` | whole runs; 64-bit against unbounded time; blocking and restoring |
| `Ticks.dfy`, `Linked.dfy`, `TimeTravel.dfy`, `Controller.dfy` | tick conversions; linked schedulers; the time-travel machine and its client |
| `Retry.dfy`, `MediumContext.dfy`, `MediumRuns.dfy`, `EarlyDelivery.dfy` | the retry loop; the queues; whole runs of the medium; a run in which air times overlap |
| `PacketError.dfy` | binomial tails, the union bound, monotonicity |
| `Virtqueue.dfy`, `Gather.dfy`, `VirtqDevice.dfy`, `Kicks.dfy` | rings, chains, the device, and its interleaving with the driver |
| `Iov.dfy`, `Reply.dfy`, `LinkMatrix.dfy` | scatter and gather; split replies; the link matrix |

`dafny verify dfyconfig.toml` checks everything.

## What the proofs found

* `usfstl_sched_add_job`'s assertion admits a start exactly 2^63 ahead. The insertion is then wrong
  exactly when another job is due now (`WrapRefinement.InsertFaithful`).
* A job added while its group is blocked has its start overwritten with 0. Released, it runs at the
  current time only while the counter is in its lower half (`WrapRefinement.ClearedStartReleasesNow`).
* Blocking groups with an allowed job does not release that job if it was on hold already
  (`Groups.BlockHolds`). From such a state a block of any other groups, restored at once, lists that
  job: a block and its restore change nothing if and only if no job on hold may run
  (`Groups.BlockThenRestore`, `Groups.UndoneBlockReleases`).
* A job on hold until its start is 2^63 or more past is not moved to the current time on release, until
  the counter comes around to it (`WrapRefinement.BumpFaithfulExactly`).
* The comment at `wmediumd/lib/sched.c:101-107` says that a later request does nothing. The code at line
  48 skips only an equal one. A job added during an external wait can push the wake-up back, one added
  and deleted again can bring it forward, and of two earlier ones the later makes the other late;
  line 236 does not look at the time again. What runs next is on time exactly as
  `TimeTravel.DisturbedWait` says; `TimeTravel.DisturbedWaitsGoWrong` runs the three cases.
* The request made by `usfstl_sched_ctrl_start`, for a job added while START was being acknowledged,
  leaves out the clock offset. It is the only one made: the add recorded the start as requested, so the
  wait asks for nothing more. A grant of it takes the clock past the job by what it started at, and fails
  the "further than requested" assertion unless that was 0 (`TimeTravel.StartRequestOvershoots`,
  `Controller.Controller.Start`).
* The program always waits for a calendar or the wall clock (`wmediumd/wmediumd.c:1622-1633`), and frames
  are queued and clients leave meanwhile, so deliveries may run early or late. Queues and job list agree all the same
  (`MediumRuns.MediumRun`). Air times do not overlap if and only if, whenever a frame is queued, no
  frame of equal or higher priority that was delivered already is due after its target
  (`MediumRuns.NeverOverlapsExactly`), so they do not when nothing is delivered early. A client that
  leaves during a wait makes another's frame be delivered early, and the next frame's air time overlaps
  it (`EarlyDelivery.EarlyDeliveryOverlaps`).
* The number of a frame's rates is taken from the length of the message at `wmediumd/wmediumd.c:962-963`,
  and only the copy that follows is limited to the array of 4. With more than 4 the later loops leave
  that array; the model has at most 4.
* `DIV_ROUND_UP` in 64-bit arithmetic rounds as intended exactly while adding the divisor less 1 does
  not overflow (`Ticks.DivRoundUpExact`).
* `n_choose_k` returns 0 for k = 0, where the coefficient is 1. `per` never asks for it.
* A virtqueue's entries keep slots of their own exactly when the ring size divides 65536, and a full
  ring never looks empty exactly when it is smaller than 65536. The device checks neither
  (`Virtqueue.SlotsApartExactly`, `Virtqueue.FullIsNotEmpty`).
* After a short chain the fixed buffer's recorded capacity stays short, so a later chain that would fit
  the real arrays is allocated (`Gather.GatherChain`).
* The length handed back for received data is right exactly when the buffer's segments have room for
  the data (`VirtqDevice.ReceivedLengthExact`); with a short buffer the driver is told of bytes that are
  not there (`VirtqDevice.ShortBufferTellsTooMuch`).
* The default error probability is not applied to the diagonal of the matrix (`LinkMatrix.LoadProb`).

## Model

| member | source | states |
|---|---|---|
| Clock.LaterFaithful | wmediumd/inc/usfstl/sched.h:144-146 | Of two times at most 2^63 apart, the signed-difference comparison of their 64-bit values is the comparison of the times if and only if the second is not exactly 2^63 ahead. |
| Clock.ComparisonsFaithful | wmediumd/inc/usfstl/sched.h:144-146 | Of two times less than 2^63 apart, each comparison of their 64-bit values is that of the times. |
| Ring.SpliceIn | wmediumd/inc/usfstl/list.h:39-46 | The four pointer writes turn a circular doubly linked list into the same list with the new entry in front of the existing one. |
| Ring.SpliceOut | wmediumd/inc/usfstl/list.h:89-95 | The removal relinks the neighbours, keeps the order of all others, and leaves the entry's own links null. |
| Ring.List.InsertBefore | wmediumd/inc/usfstl/list.h:39-46 | The list's contents become the old contents with the entry at that place. |
| Ring.List.Append | wmediumd/inc/usfstl/list.h:48-52 | The list's contents become the old contents followed by the entry. |
| Ring.List.NextItem | wmediumd/inc/usfstl/list.h:57-60 | Following next from an entry, or from the head, gives the next item, or nothing at the end. |
| Ring.RemoveItem | wmediumd/inc/usfstl/list.h:89-95 | An entry is removed without knowing its list; exactly it is gone. |
| SchedState.AddExactly | wmediumd/lib/sched.c:70-112 | A job of a blocked group that is not the one allowed goes to the end of the other list with start 0; any other is listed behind all jobs up to the first that starts later, or starts equally with lower priority. |
| Scheduler.Scheduler.ExternalRequest | wmediumd/lib/sched.c:28-56 | The caller waits unless it may run freely and the time is below the bound; a time waited for is passed on if and only if it is not the one asked for last; otherwise nothing is asked and nothing changes. |
| Scheduler.Scheduler.FindSlot | wmediumd/lib/sched.c:86-98 | The loop stops at the first listed job that starts later, or starts equally and has lower priority. |
| Scheduler.Scheduler.AddJob | wmediumd/lib/sched.c:70-112 | On the intrusive lists, the state becomes the one with the job inserted in order and its request made, or put on hold with start 0 while its group is blocked. |
| Scheduler.Scheduler.DelJob | wmediumd/lib/sched.c:119-125 | The job leaves whichever list it is on and no other job moves; a job that is not scheduled changes nothing. |
| Scheduler.Scheduler.SetTimeTo | wmediumd/lib/sched.c:127-142 | Only the time changes, and not backwards. |
| Scheduler.Scheduler.SetSyncTime | wmediumd/lib/sched.c:256-261 | The free-running bound is recorded and nothing else changes. |
| Scheduler.Scheduler.Next | wmediumd/lib/sched.c:183-246 | Without an external scheduler, the first job is taken off and time moves to its start, if that is ahead. |
| Scheduler.Scheduler.RemoveBlockedJobs | wmediumd/lib/sched.c:277-288 | The removal-safe iteration moves every listed job that may not run to the end of the other list, in order, and keeps the rest in order. |
| Scheduler.Scheduler.RestoreBlockedJobs | wmediumd/lib/sched.c:290-309 | The iteration that removes and re-adds as it goes re-adds every job that may run, starts in the past moved to now, and leaves the others on hold in order. |
| Scheduler.Scheduler.BlockGroups | wmediumd/lib/sched.c:311-327 | The old blocking is handed out, the groups are added, and the list is swept. |
| Scheduler.Scheduler.RestoreGroups | wmediumd/lib/sched.c:329-337 | The saved blocking is back, jobs that may run are re-added, and the list is swept. |
| SchedRuns.InsertSorted | wmediumd/lib/sched.c:86-98 | Insertion keeps the list sorted by start and priority. |
| SchedRuns.StepKeeps | wmediumd/lib/sched.c:70-337 | Every legal operation keeps the invariant of whole runs. |
| SchedRuns.WholeRun | wmediumd/lib/sched.c:70-337 | After any legal run each callback ran exactly at its job's start, in time order; the list is sorted and holds only jobs that may run; each add is exactly one of run, deleted, listed, on hold. |
| SchedRuns.StartIsGood | wmediumd/inc/usfstl/sched.h:104-130 | An empty scheduler at any time satisfies the invariant. |
| SchedRuns.RunsInTurn | wmediumd/lib/sched.c:86-98 | In any run, whatever is blocked and restored: of two jobs of groups that are never blocked that waited together, the one with earlier start, then higher priority, then earlier add ran first, with the fields it was added with. |
| SchedRuns.StartsInTurn | wmediumd/inc/usfstl/sched.h:104-130 | An empty scheduler at any time satisfies the invariant of runs in turn. |
| Groups.PickedInOrder | wmediumd/lib/sched.c:277-309 | The free jobs of a list, those of groups not blocked and the one allowed, and the others, each in order, are all of the list. |
| Groups.BlockExactly | wmediumd/lib/sched.c:311-327 | A block adds its groups and replaces the allowed job; the jobs not free move in order behind those on hold, the free ones stay in order, and no other field changes. |
| Groups.RestoreExactly | wmediumd/lib/sched.c:290-337 | A restore reinstates the blocking; listed are the free jobs of both lists, those that were on hold with past starts moved to now, and the others are on hold, those that were before in front. |
| WrapRefinement.GoesBeforeFaithful | wmediumd/lib/sched.c:86-94 | For starts up to 2^63 ahead, the wrapped ordering differs from the unbounded one only between a job due now and one exactly 2^63 ahead. |
| WrapRefinement.InsertFaithful | wmediumd/lib/sched.c:74-98 | Wrapped and unbounded insertion agree if and only if the start is not exactly 2^63 ahead while the first job is due now. |
| WrapRefinement.AssertionAdmits | wmediumd/lib/sched.c:74 | The assertion on add holds exactly for starts at most 2^63 ahead of the clock. |
| WrapRefinement.BumpFaithfulExactly | wmediumd/lib/sched.c:290-297 | For any start, a release treats a held job as on unbounded time if and only if the counter shows the start as past just while it is, or as equal to now; one held until its start is 2^63 past keeps it. |
| WrapRefinement.StepFaithful | wmediumd/lib/sched.c:70-337 | One guarded operation on 64-bit counters is the 64-bit reading of the operation on unbounded time. |
| WrapRefinement.WrapsAreInvisible | wmediumd/lib/sched.c:70-337 | A whole run, through any number of wraps, is the 64-bit reading of a legal run on unbounded time: same jobs, order and callbacks. |
| WrapRefinement.WrappedRunsAreGood | wmediumd/lib/sched.c:70-337 | So 64-bit runs from any counter value have the whole-run properties. |
| WrapRefinement.ClearedStartReleasesNow | wmediumd/lib/sched.c:77-84 | A start cleared to 0 is moved to now on release if and only if the counter is below 2^63. |
| Groups.RestoreSorts | wmediumd/lib/sched.c:329-337 | After any restore, from any state, the list holds only jobs that may run and the other list only jobs that may not. |
| Groups.BlockHolds | wmediumd/lib/sched.c:311-327 | A block leaves only jobs that may run on the list, and releases nothing, not even the job it allows. |
| Groups.BlockThenRestore | wmediumd/lib/sched.c:311-337 | A block undone at once keeps the jobs listed and on hold if and only if no job on hold may run; then it keeps the exact (start, priority) sequence and the order among moved and among kept jobs, puts moved ones behind kept ones only among ties, and changes nothing else but requests to an external scheduler. |
| Groups.UndoneReleases | wmediumd/lib/sched.c:311-337 | In every case a block undone at once leaves on hold exactly the held jobs that may not run, and lists exactly those that were listed and the held jobs that may run. |
| Groups.HeldAndAllowedIsReached | wmediumd/lib/sched.c:311-327 | A legal run reaches a state with an allowed job on hold. |
| Groups.UndoneBlockReleases | wmediumd/lib/sched.c:311-337 | In that state a block of another group, undone at once, lists the job. |
| Ticks.UpGalois | wmediumd/lib/internal.h:26-30 | Rounding up: a time's tick is at most t exactly when the time is at most t's own time. |
| Ticks.DownGalois | wmediumd/lib/schedctrl.c:49-53 | Rounding down: a time's tick is at least t exactly when t's own time is at most the time. |
| Ticks.RoundTrip | wmediumd/lib/sched.c:346-377 | A time granted exactly as requested gives back the requested tick, in either rounding. |
| Ticks.UpOvershoot | wmediumd/lib/schedctrl.c:43-48 | The rounded-up tick's time is at least the time received and less than one tick past it. |
| Ticks.DivRoundUpExact | wmediumd/lib/internal.h:26-30 | In unsigned 64-bit arithmetic the rounding is the mathematical one if and only if adding the divisor less 1 does not overflow. |
| Linked.RelayArms | wmediumd/lib/sched.c:366-377 | A child's request leaves the parent's link job listed at exactly the requested tick's time and nowhere else, and the parent's assertion holds. |
| Linked.ChildAddKeeps | wmediumd/lib/sched.c:366-377 | A job the child adds leaves the link job listed in the parent for exactly that job's start. |
| Linked.ChildForwardKeeps | wmediumd/lib/sched.c:160-215 | A child whose first job is not due waits, with the link job listed in the parent for that job's start. |
| Linked.SyncNeverPassesRequest | wmediumd/lib/sched.c:346-354 | While the child waits, its time by the parent's clock is the least tick not before it, is not behind its own, and not past the tick it asked for while that request is listed; for a child with a job it is, and for its first job. |
| Linked.ParentRunKeeps | wmediumd/lib/sched.c:339-364 | Each turn of the wait keeps the invariant, and the link's job ends it with the child exactly at its request, which is its first job's start if it has one. |
| Linked.LinkedRun | wmediumd/lib/sched.c:183-215 | In every run, with waits for a job and without one, neither assertion of the time setting fires, and a child that is not waiting agrees exactly with its parent's clock. |
| Linked.WaitEndsExactly | wmediumd/lib/sched.c:356-364 | Every wait that ends, ends at the tick asked for last, which is the start of the first job if there is one. |
| Linked.LinkStarts | wmediumd/lib/sched.c:379-411 | Linking two standalone schedulers establishes the invariant, with a job already there requested. |
| TimeTravel.StepSafe | wmediumd/lib/schedctrl.c:27-65 | Each step keeps local time within what the calendar allowed. |
| TimeTravel.TimeTravelSafety | wmediumd/lib/schedctrl.c:43-134 | In every reachable state local time is less than a tick past the last RUN or GET time, or at least a tick below a FREE_UNTIL bound received. |
| TimeTravel.StartIsSafe | wmediumd/lib/schedctrl.c:163-171 | At the start the offset makes local time the calendar's 0, and the state is safe and connected. |
| TimeTravel.StepAsksRightly | wmediumd/lib/sched.c:28-68 | An added job that may run, or a first job not due that the program goes on to, is asked for if and only if the program waits or the start is not below the free bound, and it is not the start asked for last; nothing else is asked, and beginning to wait forgets what was asked last. |
| TimeTravel.RunAsksRightly | wmediumd/lib/sched.c:28-68 | So it is at every step of every run of a connected scheduler. |
| TimeTravel.GoesOn | wmediumd/lib/sched.c:160-246 | A first job that is due runs at once; one that is not runs freely at its start if and only if that is below the bound, and is waited for otherwise. |
| TimeTravel.MessagesDo | wmediumd/lib/schedctrl.c:43-53 | RUN ends the wait, and it and a GET reply set the clock, to the least tick not before the time they carry; FREE_UNTIL sets the bound to the greatest tick not after its time; nothing else changes. |
| TimeTravel.GrantAccepted | wmediumd/lib/sched.c:127-158 | In any state, both assertions of the time setting let a granted time through if and only if it is less than a tick behind local time and, unless no job is listed, not past the time last requested. |
| TimeTravel.StartRequestOvershoots | wmediumd/lib/schedctrl.c:173-192 | A job added while START is acknowledged is recorded as requested and the wait for it asks for nothing more; a grant of the one request, which leaves the offset out, moves the clock to the job's start plus the starting time, and is let through if and only if that was 0. |
| TimeTravel.NeverEarlyRun | wmediumd/lib/sched.c:160-246 | With a calendar that grants the last request, no job runs before its start if jobs are only added during waits. |
| TimeTravel.StartIsPunctual | wmediumd/lib/schedctrl.c:163-171 | A standalone scheduler with nothing overdue, connected to a calendar, satisfies the invariants of both runs. |
| TimeTravel.PunctualRun | wmediumd/lib/sched.c:160-246 | Every job runs exactly at its start if jobs added during a wait are due first and the first is not deleted. |
| TimeTravel.DisturbedWait | wmediumd/lib/sched.c:43-53 | After a wait with any adds, deletes and free-running bounds, the first job runs at the last time asked for if it is the one waited for or due by then; what runs next is on time if and only if nothing runs at once or what does is due at that time. |
| TimeTravel.WaitEnds | wmediumd/lib/sched.c:183-246 | What follows a wait in every case: nothing to run, a job run at the time asked for last, one run freely at its start, or one asked for again. |
| TimeTravel.DisturbedWaitsGoWrong | wmediumd/lib/sched.c:101-108 | Three concrete waits for a job due at 10: it runs at 20, it runs at 5, and another job due at 5 runs at 7. |
| Controller.NextSeq | wmediumd/lib/schedctrl.c:73-75 | The next sequence number is a 32-bit number that is never 0. |
| Controller.SeqsDiffer | wmediumd/lib/schedctrl.c:73-79 | Sequence numbers of two messages fewer than 2^32 - 1 apart differ, so no stale acknowledgement matches. |
| Controller.Controller.constructor | wmediumd/lib/schedctrl.c:158-181 | The client of a standalone scheduler without jobs, its time 0 wherever the local clock stands, with nothing sent. |
| Controller.Controller.SockRead | wmediumd/lib/schedctrl.c:27-65 | RUN ends the wait and sets the clock to the least tick not before its time; FREE_UNTIL sets the bound to the greatest tick not after its time; each is acknowledged with its number, and an acknowledgement counts only for the expected number. |
| Controller.Controller.SendMsg | wmediumd/lib/schedctrl.c:67-124 | Exactly the messages before the matching acknowledgement are handled and acknowledged, in order, none after it; the expected number is restored; a GET's reply sets the clock to the least tick not before its time, which the assertions of the time setting admit. |
| Controller.Controller.ExternalWait | wmediumd/lib/schedctrl.c:137-146 | A wait handles exactly the messages up to the next RUN, which leaves the clock at the least tick not before its time and the program past the wait. |
| Controller.Controller.Start | wmediumd/lib/schedctrl.c:186-192 | START is sent and acknowledged; then the start of the first job added meanwhile, if any, is requested without the offset; messages before each acknowledgement are handled in order. |
| Controller.Controller.RequestTime | wmediumd/lib/schedctrl.c:126-135 | Nothing is sent before the start; then the tick's time in nanoseconds, offset included. |
| Controller.Controller.SyncTo | wmediumd/lib/schedctrl.c:201-211 | The calendar is told of local time in its own nanoseconds, offset included. |
| Controller.Controller.SyncFrom | wmediumd/lib/schedctrl.c:213-218 | Local time in nanoseconds is then at least the calendar's and less than one tick past it, and is one the assertions of the time setting admit. |
| Controller.ReceivedIsSafe | wmediumd/lib/schedctrl.c:27-65 | Any sequence of accepted messages keeps local time within what the calendar allowed. |
| Retry.IndexToRate | wmediumd/per.c:279-288 | The rate used for any index and frequency is one of the table, between 1 and 54 Mbit/s. |
| Retry.RateUsed | wmediumd/per.c:279-288 | Up to 5000 MHz the index picks the rate; above it the table starts at 6 Mbit/s; beyond its end the rate is 54 Mbit/s. |
| Retry.PktDurationSymbols | wmediumd/wmediumd.c:61-70 | The duration is 20 us and the fewest 4 us symbols that carry the frame's bits (TXTIME, section 17.4.3 of IEEE Std 802.11-2016). |
| Retry.PktDurationIsTxTime | wmediumd/wmediumd.c:61-70 | The duration is 20 us and n 4 us symbols, n the only number of symbols that carry the bits of which one fewer would not. |
| Retry.WindowWidens | wmediumd/wmediumd.c:505-510 | The window starts at cwMin, and each backoff makes it twice itself and 1, at most cwMax. |
| Retry.EachAttemptAdds | wmediumd/wmediumd.c:479-522 | One more attempt adds 34 us and the frame's TXTIME; unless no acknowledgement is wanted, 16 us and the TXTIME of 14 bytes; and, if it is not the first at its rate, half the window in slots of 9 us, after which the window is one backoff wider. |
| Retry.NextRateAdds | wmediumd/wmediumd.c:477-490 | Before the first attempt send_time is 0, and turning to the next rate adds nothing to it and leaves the window. |
| Retry.TwoAttempts | wmediumd/wmediumd.c:490-522 | Two attempts at the first rate take twice the time of one and a backoff from the smallest window. |
| Retry.SecondAttemptWaits | wmediumd/wmediumd.c:505-510 | 100 bytes of best effort at 1 Mbit/s, acknowledged at the second attempt, take 2167 us, 67 of them the backoff. |
| Retry.DrawsDecide | wmediumd/wmediumd.c:514-520 | Where acknowledgements are wanted, the one attempt whose random number exceeds its rate's error probability is the last, and acknowledged; the number is drawn anew for each attempt unless it is fixed. |
| Retry.AtMostOne | wmediumd/wmediumd.c:496-500 | Without acknowledgements there is one attempt, or none where the table allows none. |
| Retry.TryRate | wmediumd/wmediumd.c:490-521 | The attempts at one rate extend the record of attempts, with time, window and retries its closed forms. |
| Retry.Transmit | wmediumd/wmediumd.c:477-531 | The loop tries the rates in order until the first random number that exceeds the error probability, or exhaustion; send_time is the sum that `Retry.EachAttemptAdds` gives attempt by attempt; the reported table has the attempts of the used rates, and the others voided once acknowledged. |
| Retry.ReportedCounts | wmediumd/wmediumd.c:524-531 | The counts reported for the used rates are the attempts made, and sum to them. |
| Retry.SendTimeFits | wmediumd/wmediumd.c:479-522 | With at most 4 rates and 65535 bytes, send_time is a non-negative 32-bit int. |
| MediumContext.TargetIsTailMax | wmediumd/wmediumd.c:533-545 | The target is the latest start among the tails of equal or higher priority, or now. |
| MediumContext.Context.FindTarget | wmediumd/wmediumd.c:533-545 | The double loop over categories and stations finds the target. |
| MediumContext.Context.QueueFrame | wmediumd/wmediumd.c:409-589 | The frame, from the station's client, goes to the end of its queue and its delivery is scheduled at the latest start among the scanned tails, or now, plus send_time, which is that of the retry loop with the category's windows (3 to 7, 7 to 15, or 15 to 1023) and fits 32 bits. |
| MediumContext.Context.RunNext | wmediumd/wmediumd.c:770-779 | Whenever the first job runs, early or late, the frame a delivery is part of leaves the place where it is queued, which is the head of one queue, no other queue changes, and queues and job list go on agreeing. |
| MediumContext.Context.RemoveFrom | wmediumd/wmediumd.c:644-656 | One queue's deleting iteration removes exactly the client's frames and their delivery jobs and keeps the order of the rest. |
| MediumContext.Context.RemoveClient | wmediumd/wmediumd.c:632-656 | No station has the client any more and all others keep theirs; the queues lose exactly its frames, and the scheduler exactly their delivery jobs. |
| MediumRuns.TargetIsMax | wmediumd/wmediumd.c:533-545 | Scanning the tails finds the latest start among all frames of equal or higher priority. |
| MediumRuns.QueueAgrees | wmediumd/wmediumd.c:570-588 | Queueing a frame keeps queues and job list in agreement, and its air time begins at that latest start. |
| MediumRuns.DeliveredIsHead | wmediumd/wmediumd.c:770-779 | In every state in which queues and job list agree, overdue jobs or not, the frame of a delivery that is first in the job list is the head of its queue. |
| MediumRuns.FoundIsHead | wmediumd/wmediumd.c:770-779 | In every such state, wherever a frame of the first delivery is found in the queues, it is that delivery's frame and the head of its queue. |
| MediumRuns.DeliveryAgrees | wmediumd/wmediumd.c:770-779 | A delivery, at whatever time it runs, takes the head off one queue, touches no other, and keeps the agreement. |
| MediumRuns.RemoveAgrees | wmediumd/wmediumd.c:632-656 | Removing a client takes exactly its frames and exactly their delivery jobs, and keeps the agreement. |
| MediumRuns.RemovalMakesUnknown | wmediumd/wmediumd.c:639-656 | A removal leaves no station with the client and no queued frame from it. |
| MediumRuns.RemovedStaysUnknown | wmediumd/wmediumd.c:632-656 | From a client's removal until a station is given to it again, no station has it and no frame is queued as coming from it. |
| MediumRuns.MediumRun | wmediumd/wmediumd.c:533-588 | In every reachable state, whatever ran early or late, a frame is queued exactly when its delivery is scheduled, in one place and in the order of deliveries. |
| MediumRuns.StartAgrees | wmediumd/wmediumd.c:92-105 | Empty queues and an empty scheduler satisfy the invariant. |
| MediumRuns.StepOverlaps | wmediumd/wmediumd.c:533-588 | A step keeps air times apart if and only if it does not queue a frame whose target is before the due time of a delivered frame of equal or higher priority. |
| MediumRuns.NeverOverlapsExactly | wmediumd/wmediumd.c:533-588 | Air times overlap in no state of a run if and only if every queueing in it is of that kind. |
| MediumRuns.DeliveredDoNotOverlap | wmediumd/wmediumd.c:533-588 | In a run of such queueings, of two delivered frames the later queued one, of equal or lower priority, begins its air time after the earlier one ended. |
| MediumRuns.NoneEarlyDoNotOverlap | wmediumd/wmediumd.c:533-588 | So it is in every run in which no delivery runs before it is due, whatever runs late. |
| EarlyDelivery.EarlyDeliveryOverlaps | wmediumd/wmediumd.c:632-656 | A client that leaves during a wait makes another's frame be delivered at 5 instead of 10, and the frame queued then begins its air time at 5. |
| MediumRuns.RestrictIsQueue | wmediumd/wmediumd.c:583-588 | In every state in which queues and job list agree, overdue jobs or not, the job list restricted to a queue is that queue in the same order, whatever starts tie. |
| PacketError.NChooseK | wmediumd/per.c:54-69 | The product loop computes exactly the binomial coefficient, and 0 for k = 0. |
| PacketError.TermSumIsTail | wmediumd/per.c:139-146 | The sum of binomial terms from k up is the probability of at least k errors, defined by conditioning on one bit. |
| PacketError.TailBounds | wmediumd/per.c:139-146 | Each tail is a probability, and tails fall with k. |
| PacketError.TailMonotone | wmediumd/per.c:139-146 | Each tail is nondecreasing in the bit error rate. |
| PacketError.EvenIsOddBelow | wmediumd/per.c:139-150 | The half-weighted tie makes p_d for every even d >= 2 equal p of d - 1. |
| PacketError.PathErrorBounds | wmediumd/per.c:135-153 | Each p_d lies between 0 and 1. |
| PacketError.PathErrorMonotone | wmediumd/per.c:135-153 | Each p_d is nondecreasing in the bit error rate. |
| PacketError.DotProduct | wmediumd/per.c:71-80 | The loop computes the sum of products. |
| PacketError.SumTerms | wmediumd/per.c:139-146 | The loop adds exactly the binomial terms from the first to d. |
| PacketError.Per | wmediumd/per.c:114-160 | The program computes 1 less the chance that all 8 len bits survive the union bound, capped at 1, over the ten majority-error terms. |
| PacketError.SurvivesByByte | wmediumd/per.c:155-160 | A frame of 0 bytes is never lost, and a frame of n + 1 bytes survives as likely as one of n bytes and one of one byte do. |
| PacketError.SurvivesByBit | wmediumd/per.c:114-160 | A byte survives as likely as eight bits, each of which is lost with the sum, capped at 1, of the ten weights times the probabilities that most of the bits at that distance are wrong. |
| PacketError.UncorrectedMonotone | wmediumd/per.c:155-157 | The capped union bound is a probability and nondecreasing in the bit error rate. |
| PacketError.PerIsMonotone | wmediumd/per.c:114-160 | The packet error rate lies in [0, 1] and is nondecreasing in the bit error rate and in the frame length. |
| PacketError.QamAxes | wmediumd/per.c:97-109 | The QAM formula is the chance that either of two independent axes is wrong, over the bits of a symbol, an axis being wrong with 1/2, 3/4 or 7/8 of erfc's value; BPSK's is half of it. |
| PacketError.BitErrorMonotone | wmediumd/per.c:86-109 | The bit error rate is a probability and nondecreasing in erfc's value. |
| PacketError.ErrorProbPicks | wmediumd/per.c:162-187 | Without signal, or beyond the table, a frame is always lost; otherwise the index, 4 more above 5000 MHz, picks constellation and code, and for an OFDM rate 48 symbols of that constellation and code in 4 us carry the rate. |
| PacketError.ErrorProbMonotone | wmediumd/per.c:162-187 | A stronger signal never makes a frame more likely to be lost and a longer frame never less, at any rate index and frequency. |
| Virtqueue.SameSlot | wmediumd/lib/vhost.c:92-94 | Two entries less than a ring apart in one slot are the same entry, across wraps, when the ring size divides 65536. |
| Virtqueue.SlotsApartExactly | wmediumd/lib/vhost.c:92-94 | A full ring's entries have slots of their own if and only if the ring size divides 65536. |
| Virtqueue.FullIsNotEmpty | wmediumd/lib/vhost.c:86-87 | A full ring never looks empty if and only if it is smaller than the index range. |
| Virtqueue.EmptyExactly | wmediumd/lib/vhost.c:80-87 | Comparing two wrapped indices finds exactly an empty queue. |
| Virtqueue.HeadIsOldest | wmediumd/lib/vhost.c:92-95 | The head read is the oldest posted one not handled, and the assertion on its range holds. |
| Virtqueue.InPlace | wmediumd/lib/vhost.c:92-94 | An entry in flight is in its ring at its number modulo 65536, modulo the ring's size. |
| Virtqueue.StepKeeps | wmediumd/lib/vhost.c:79-95 | Posting, taking, publishing and collecting keep indices, counts and ring contents in agreement. |
| Virtqueue.QueueIsFifo | wmediumd/lib/vhost.c:79-95 | Over any run the device handles posted heads once each and in order, publishes their ids in that order, and the driver collects exactly what was published. |
| Virtqueue.IndicesAgree | wmediumd/lib/vhost.c:288-298 | Between buffers the used index and last_avail_idx are equal. |
| Virtqueue.DrainedHandlesAll | wmediumd/lib/vhost.c:336-341 | Emptying a queue handles every posted head and publishes exactly their ids, in order, each with the length written to its buffer. |
| Gather.WalkEndsExactly | wmediumd/lib/vhost.c:97-106 | The walk over a chain ends if and only if the chain visits no descriptor twice and stays in the table. |
| Gather.WalkIsUnique | wmediumd/lib/vhost.c:97-106 | At most one list of descriptors goes from a head along the next fields to the end of its chain. |
| Gather.VectorsExactly | wmediumd/lib/vhost.c:128-148 | Each descriptor is found, with translated address and length, in the vectors of its own direction behind its predecessors of that direction, and nothing else is there. |
| Gather.ChainIsSplit | wmediumd/lib/vhost.c:97-148 | The vectors hold that list's segments: the device-writable ones in one and the others in the other, each behind those of its kind before it, and nothing else. |
| Gather.Count | wmediumd/lib/vhost.c:97-106 | The first pass counts the two directions. |
| Gather.Buf.Fill | wmediumd/lib/vhost.c:124-148 | The second pass fills the two vectors with the chain's filters by direction, never past their ends. |
| Gather.GatherChain | wmediumd/lib/vhost.c:97-151 | The buffer holds the chain's segments as the descriptor table has them; the fixed buffer is used exactly when its recorded capacities suffice, and these only shrink; otherwise a new buffer has exactly the right size. |
| VirtqDevice.Device.GetVirtqBuf | wmediumd/lib/vhost.c:73-151 | Nothing for an empty queue; otherwise the oldest head's gathered chain, with last_avail_idx advanced and nothing else changed. |
| VirtqDevice.Device.SendVirtqBuf | wmediumd/lib/vhost.c:275-298 | The used ring gets the id and length at its index, and the index advances. |
| VirtqDevice.Device.HandleQueue | wmediumd/lib/vhost.c:322-342 | The handler is called once per waiting head, in order, with the head's chain as the descriptor table has it, the device-writable segments apart from the others, and the queue is emptied, whatever buffers the chains needed. |
| VirtqDevice.Device.JobCallback | wmediumd/lib/vhost.c:344-356 | Every triggered queue is emptied and its flag cleared, and the others stay as they are; the handler is called queue by queue, for each triggered queue's waiting heads with their chains, and for nothing else. |
| VirtqDevice.Device.Kick | wmediumd/lib/vhost.c:358-380 | The kick of an input queue is noted and the job scheduled once, for the latency after now, or run at once without a scheduler; other kicks change nothing. |
| VirtqDevice.Device.DevNotify | wmediumd/lib/vhost.c:773-806 | Nothing happens on a disabled or empty queue; otherwise the data fills the oldest buffer's segments and nothing else in memory, the buffer is handed back with the data's length, and reading that length back gives the data if and only if the segments have room for it. |
| VirtqDevice.ReceivedLengthExact | wmediumd/lib/vhost.c:800-804 | The length handed back is the number of bytes in the segments if and only if they have room for the data, and, unless they overlap where it goes, exactly then does the driver read the data. |
| VirtqDevice.ShortBufferTellsTooMuch | wmediumd/lib/vhost.c:800-804 | Two bytes received into one segment of one byte are handed back as two. |
| VirtqDevice.PendingIsUnhandled | wmediumd/lib/vhost.c:80-94 | What the device finds waiting is what was posted and not handled, in order. |
| VirtqDevice.CallbackIsRun | wmediumd/lib/vhost.c:344-356 | The interrupt job run alone is a sequence of steps of the interleaved machine with the same result for every queue. |
| Kicks.NextKeeps | wmediumd/lib/vhost.c:322-380 | Every step of driver, transport or device keeps: an unhandled entry of an input queue has a kick owed, under way or noted with the job coming, or is being served. |
| Kicks.QuietRunsAreDrained | wmediumd/lib/vhost.c:322-380 | In every interleaving, whenever all is quiet every input queue has each posted head handled once, in order, and published. |
| Kicks.NextIsSmaller | wmediumd/lib/vhost.c:336-356 | Every step but the driver's own brings the device nearer to rest, in a well-founded order. |
| Kicks.NotStuck | wmediumd/lib/vhost.c:344-380 | While something is under way, some step other than the driver's is possible. |
| Kicks.Settles | wmediumd/lib/vhost.c:322-380 | Once the driver stops, the device comes to rest with every input queue drained. |
| Iov.AddressInSegment | wmediumd/lib/vhost.c:878-916 | Byte i of a segment, counted after all bytes of the segments before it, has the address i past the segment's base. |
| Iov.FilledAt | wmediumd/lib/vhost.c:878-896 | iov_fill puts the i-th byte of the data at the i-th address of the segments. |
| Iov.FilledElsewhere | wmediumd/lib/vhost.c:878-896 | iov_fill changes no byte outside the first bytes of the segments that the data needs. |
| Iov.GatheredAt | wmediumd/lib/vhost.c:898-916 | iov_read's i-th byte is the byte at the i-th address. |
| Iov.RoundTrip | wmediumd/lib/vhost.c:878-916 | Filling and then reading at most as much gives the first min(data, segments, wanted) bytes of the data. |
| Iov.RoundTripBeyond | wmediumd/lib/vhost.c:878-916 | Reading more than was filled gives all the data, then the memory that follows unchanged. |
| Iov.RoundTripExactly | wmediumd/lib/vhost.c:878-916 | The round trip of n bytes works for all data if and only if the segments' first n bytes do not overlap. |
| Iov.IovLen | wmediumd/lib/vhost.c:867-876 | The loop adds the segments' lengths. |
| Iov.IovFill | wmediumd/lib/vhost.c:878-896 | The in-place loop fills segment by segment and returns min(data, segments). |
| Iov.IovRead | wmediumd/lib/vhost.c:898-916 | The loop reads segment by segment, returns min(buffer, segments), and leaves the rest of the buffer alone. |
| Reply.Truncate | wmediumd/lib/vhost.c:692-698 | Afterwards the first n segments together are exactly the reply. |
| Reply.Consume | wmediumd/lib/vhost.c:709-717 | Stepping over the accepted bytes leaves exactly the rest, in order. |
| Reply.Send | wmediumd/lib/vhost.c:690-718 | For any partial sends the bytes sent are the first reply-length bytes, each once, and the loop ends; otherwise the socket failed part-way, or the segments held too little and all of them were sent. |
| LinkMatrix.ReadLinks | wmediumd/config.c:590-612 | The list is accepted if and only if every entry is good; then the last entry of a direction decides it, and the map marks exactly the configured directions. |
| LinkMatrix.MirrorAllAt | wmediumd/config.c:389-399 | After mirroring any pairs in any order, an entry is its reverse's value exactly when the reverse alone was configured and its pair was visited. |
| LinkMatrix.MirrorOrderIrrelevant | wmediumd/config.c:649-664 | Any two orders that visit all pairs give the same matrix. |
| LinkMatrix.MirrorLinks | wmediumd/config.c:649-664 | The in-place double loop is the mirroring in row order. |
| LinkMatrix.RowMajor | wmediumd/config.c:590-612 | The matrix is stored row by row. |
| LinkMatrix.QualityExactly | wmediumd/config.c:590-664 | The last entry for a direction decides it; without one, the last for the other direction does, except on the diagonal; without either it is the default. |
| LinkMatrix.LoadSnr | wmediumd/config.c:515-612 | Accepted exactly when all entries are good; then each entry is its own last value, else its reverse's, else 30. |
| LinkMatrix.FillDefault | wmediumd/config.c:613-620 | The double loop writes the default everywhere off the diagonal and nothing on it. |
| LinkMatrix.LoadProb | wmediumd/config.c:559-664 | Accepted exactly when the default and all entries are probabilities in range; then each entry is its own last value, else its reverse's, else the default, or 0 on the diagonal. |

## Left out

- Scheduler.Scheduler.Next: proved without an external scheduler; the waits for one are steps of the machines in `Linked.dfy` and `TimeTravel.dfy`, on values.
- Scheduler.Scheduler.AddJob: the hooks next_time_changed and time_advanced are not modelled; the request hook is recorded, not called.
- Scheduler.Scheduler.RestoreGroups: the mask of groups is a set of bit numbers, and the assertion that a group is below 32 is not asked for again on a job that is re-added.
- SchedRuns.WholeRun: about a scheduler that nothing external drives; what waits for a calendar or a parent do to it is in `TimeTravel.dfy` and `Linked.dfy`.
- SchedRuns.StepKeeps: has the same limit.
- SchedRuns.RunsInTurn: about a scheduler that nothing external drives, and jobs of groups that are never blocked; a block and restore may reorder ties with moved jobs, as `Groups.BlockThenRestore` says.
- WrapRefinement.WrapsAreInvisible: adds and releases exactly 2^63 ahead of a job due now, and releases of jobs whose past start the counter takes for the future, are excluded; lemmas beside it show exactly why. Nothing external drives the scheduler.
- WrapRefinement.StepFaithful: has the same exclusions.
- WrapRefinement.WrappedRunsAreGood: has the same exclusions.
- Linked.LinkedRun: the parent runs alone and its callbacks add no child jobs; no groups are blocked, and nobody sets a free-running bound on the child, which linking does not; time is unbounded.
- Linked.WaitEndsExactly: has the same limits.
- TimeTravel.NeverEarlyRun: no group is blocked.
- TimeTravel.PunctualRun: no group is blocked.
- TimeTravel.DisturbedWait: no group is blocked, and GET replies during the wait are not among the edits.
- TimeTravel.TimeTravelSafety: frozen mode and nested sends are not modelled; time is unbounded.
- Controller.Controller.SendMsg: the socket is the sequence of messages it will deliver, and handling other file descriptors while waiting is not modelled; the scheduler is a value.
- Controller.Controller.Start: jobs that other handlers add and delete while START is acknowledged come after the messages handled then; the connection itself is left out.
- Controller.Controller.SyncFrom: frozen mode, in which the offset moves instead, is not modelled.
- MediumContext.Context.QueueFrame: stations and queues are sequences of values, so aliasing of list entries is not captured; choice of access category, destination, signal, interference and fading are inputs; the workaround that fills in rates and the pcap log are left out; need_start_notify is 0; more than 4 rates, for which the source leaves its array, are excluded.
- MediumContext.Context.RunNext: the waits are in `TimeTravel.dfy`; here the time they end at is an input.
- MediumContext.Context.RemoveClient: the list of clients to free, and start jobs, are left out.
- MediumRuns.MediumRun: no group of jobs is blocked, as wmediumd never does; reloading or clearing the configuration while frames are queued is not an operation; the clock does not wrap, as the comparison at wmediumd/wmediumd.c:542 needs.
- PacketError.Per: exact reals in place of doubles; erfc's value is an input, as are square roots and logarithms of the four constellation sizes, given as their exact values.
- PacketError.ErrorProbMonotone: that a stronger signal gives erfc a smaller value is an assumption about the inputs.
- Virtqueue.QueueIsFifo: memory barriers, byte order, and a driver that breaks the rules of section 2.6 of VIRTIO 1.1 are left out.
- VirtqDevice.Device.GetVirtqBuf: rings and descriptor tables are sequences, so overlap in shared memory is not captured; address translation is a function; running out of memory is left out.
- VirtqDevice.Device.SendVirtqBuf: the notification of the driver, the wait for its acknowledgement and the time synchronization before it are left out.
- VirtqDevice.Device.Kick: the time synchronization before the job is scheduled is left out; the time after it is an input.
- VirtqDevice.Device.HandleQueue: one call is a single step here, with lengths written as inputs; its interleaving with the driver is in `Kicks.dfy`.
- VirtqDevice.Device.DevNotify: the assertion that the chain has only device-writable segments is asked of the driver.
- Kicks.QuietRunsAreDrained: without a scheduler, kicks that arrive during the callback are not modelled.
- Reply.Send: a segment's base and length are the sequence of its remaining bytes.
- LinkMatrix.LoadSnr: parsing, allocation failure, path loss, and the choice between the kinds of model are left out; exactly one kind is read at a time, as in the source.
- Gather.GatherChain: a chain that leaves the table or comes back to a descriptor is excluded, because the source then reads out of bounds or never ends.
- Netlink, sockets, file descriptors, the configuration file format, pcap output, path-loss models, station movement, interference and fading are not modelled.
- Choice of access category from a frame, frame-type and address predicates, the event loop, the wall clock and the PER file are left out.
