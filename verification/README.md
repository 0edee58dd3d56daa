# Locks, triggers, queues and address pools of enipam, verified

This project models the parts of enipam in which a wrong interleaving, pointer or count would do harm, and
proves what they keep. `dafny verify dfyconfig.toml` checks all of it.

| file | what it is about |
|---|---|
| `WaitGroup.dfy` | the stoppable wait group, each method one atomic step, against a plain counter |
| `WaitGroupSteps.dfy` | the same under every interleaving of any number of goroutines |
| `WaitGroupLedger.dfy` | who owes a `Done`, and exactly when waiters are released too early |
| `Trigger.dfy`, `TriggerSteps.dfy` | the folding, rate-limited trigger: its critical sections, and every interleaving with its waiter and a clock |
| `LinkedList.dfy` | the singly-linked list, updated in place, against a plain sequence |
| `MultiQueue.dfy` | a map of such lists whose elements stay apart; first in, first out for every name |
| `PoolStore.dfy`, `PoolLife.dfy` | the stored address pool, `updatePool` and `deletePool`, and every run of them |
| `PoolWatermark.dfy` | how many addresses a round adds and takes away, and its convergence |
| `Lockfile.dfy`, `LockfileSteps.dfy` | the cancellable file lock over the kernel's lock table, under every interleaving |
| `LockfileReuse.dfy` | exactly when a call on a handle can end with a user told of a lock that is gone |
| `SemaphoredMutex.dfy` | the reader/writer lock made of semaphore weights |
| `Options.dfy`, `Distinct.dfy` | an option type; sequences without repetition |

Objects that are updated in place are classes, whose methods are proved against functions on values. Where
several goroutines meet, a program counter per goroutine takes one step for each channel operation, atomic
add, critical section or system call, and the results hold for every run of such steps.

Four results say that the code does less than one might expect, with the exact condition:

* Waiters of the wait group can be released while a counted `Add` is unpaid (`EarlyReleaseHappens`, lines
  90-97 of the source: the decrement and the second look at `noopAdd` are two steps). `EarlyReleaseIff` and
  `SafeRunIff` say exactly when; `NoEarlyRelease` proves that callers who add only while holding a counted
  `Add` are safe.
* The comment on `Wait` speaks of a negative counter; the code releases at zero or below, and so does the model.
* A user of a file lock can be told of a lock that is then dropped from under them, and another of the same
  lock (`TwoExclusiveOwners`). `MisleadsIff` says exactly when: a clean-up of an earlier cancelled call may
  still drop the lock, or the call can be cancelled and the handle is locked already. A caller who waits
  until nothing is under way on the handle, and unlocks before locking, is safe (`QuietSuffices`).
* `deletePool` takes the finalizer off in one call to the API server and deletes in another. When just the
  delete fails, the object is left without its guard, and an address can be given out from it and outlive
  it (`GuardIsLost` has a run for every adopted object). `SafeStep`, `SafeRunIff` and `LeakIffUnguarded` are
  the exact conditions, for a call, a run and an object.

## Model

| member | source | states |
|---|---|---|
| WaitGroup.StoppableWaitGroup.constructor | pkg/lock/stoppable_waitgroup.go:23-31 | a new group counts zero, with both channels open and neither `Once` used |
| WaitGroup.StoppableWaitGroup.Add | pkg/lock/stoppable_waitgroup.go:64-71 | counts one more, unless stopped |
| WaitGroup.StoppableWaitGroup.Done | pkg/lock/stoppable_waitgroup.go:76-105 | counts one less unless released, and releases when stopped and at zero or below |
| WaitGroup.StoppableWaitGroup.Stop | pkg/lock/stoppable_waitgroup.go:36-46 | once only: adds, closes `noopAdd`, and takes its own `Add` back through `Done` |
| WaitGroup.StoppableWaitGroup.WaitReturns | pkg/lock/stoppable_waitgroup.go:48-53 | between calls, `Wait` returns at once exactly when the group is stopped and its counter is at most zero |
| WaitGroup.AtomicRefinesCounter | pkg/lock/stoppable_waitgroup.go:36-105 | for every order of whole calls the five fields are functions of one counter and one switch; `noopDone` is closed exactly when stopped and the count is at most zero, so the `Add` and `Done` inside `Stop` cancel; this is what the methods keep and `WaitReturns` rests on |
| WaitGroup.FrozenAfterRelease | pkg/lock/stoppable_waitgroup.go:64-105 | after the release no sequence of calls changes anything |
| WaitGroupSteps.InvStep | pkg/lock/stoppable_waitgroup.go:36-105 | every step of every goroutine keeps: once `Stop` has made its decrement, a count at or below zero means released, or somebody past a decrement that will release |
| WaitGroupSteps.NoMissedRelease | pkg/lock/stoppable_waitgroup.go:36-105 | in every interleaving, with `Stop` returned and nobody inside `Done`, a count at or below zero has released the waiters |
| WaitGroupSteps.PendingReleases | pkg/lock/stoppable_waitgroup.go:76-105 | with somebody still inside, two steps of one goroutine suffice for the release |
| WaitGroupSteps.ClosedOnce | pkg/lock/stoppable_waitgroup.go:37-45 | no interleaving closes either channel twice |
| WaitGroupSteps.SoloCallIsAtomic | pkg/lock/stoppable_waitgroup.go:36-105 | a call that nobody interrupts comes back with exactly the effect of the atomic method |
| WaitGroupLedger.PaidStep | pkg/lock/stoppable_waitgroup.go:64-105 | when each `Done` pays for one counted `Add`, the counter equals the unpaid `Add`s plus the one `Stop` holds, in every interleaving |
| WaitGroupLedger.DoomedStep | pkg/lock/stoppable_waitgroup.go:90-97 | the one kind of step that makes an early release possible is a counted `Add` after the release has been decided |
| WaitGroupLedger.EarlyReleaseIff | pkg/lock/stoppable_waitgroup.go:76-105 | from a reachable state waiters can be released too early without another counted `Add` if and only if the release has been decided while something is unpaid |
| WaitGroupLedger.SafeRunIff | pkg/lock/stoppable_waitgroup.go:64-105 | a whole run stays clear of that if and only if no counted `Add` in it comes after the decision |
| WaitGroupLedger.NoEarlyRelease | pkg/lock/stoppable_waitgroup.go:48-105 | when after set-up only holders of a counted `Add` add, released waiters mean that nothing is unpaid, also for a close that rests on an old decrement |
| WaitGroupLedger.ReleasedExactlyWhenPaid | pkg/lock/stoppable_waitgroup.go:48-53 | under the same discipline, with `Stop` returned and nobody inside `Done`, waiters are released if and only if nothing is unpaid |
| WaitGroupLedger.EarlyReleaseHappens | pkg/lock/stoppable_waitgroup.go:90-97 | a concrete run without that discipline that releases waiters while one counted `Add` is unpaid |
| Trigger.Trigger.NewTrigger | pkg/util/trigger.go:55-75 | refuses to start without a function; otherwise nothing is requested, no token is there, nothing is closed, and the last run is taken to be `MinInterval` ago |
| Trigger.Trigger.NeedsDelay | pkg/util/trigger.go:79-86 | a delay is needed exactly before the last run plus `MinInterval`, and is what is missing to it |
| Trigger.Trigger.Trigger | pkg/util/trigger.go:92-102 | sets the flag, counts a fold and leaves a token, whether or not there was one; the last run and the close channel stay as they were |
| Trigger.Trigger.Shutdown | pkg/util/trigger.go:105-107 | closes the close channel and changes nothing else |
| Trigger.Trigger.Pass | pkg/util/trigger.go:110-130 | an undisturbed pass runs exactly when the flag was up, at the very end of `MinInterval` when a delay is due and at once otherwise, and takes the folds |
| TriggerSteps.InvStep | pkg/util/trigger.go:92-142 | every step of callers, waiter, clock and shutdown keeps the four invariants: counts, wake-ups, rate and order |
| TriggerSteps.NoLostTrigger | pkg/util/trigger.go:92-142 | in every interleaving before shutdown is seen, every request has been followed by a start, or one is about to come, or the flag is up and a token is there or on its way |
| TriggerSteps.BlockedMeansServed | pkg/util/trigger.go:92-133 | a waiter blocked on an empty slot with no caller in mid-call has started a run after every request ever made |
| TriggerSteps.FoldAccounting | pkg/util/trigger.go:92-127 | each report is the number of requests since the one before; reports plus `numFolds` are all requests; runs never outnumber requests |
| TriggerSteps.RateLimited | pkg/util/trigger.go:67-86 | recorded starts are at least `MinInterval` apart, the first is not delayed, and no other is put off longer than to `MinInterval` after the last |
| TriggerSteps.RunsNeverOverlap | pkg/util/trigger.go:109-130 | since one goroutine makes all runs, they follow one another |
| TriggerSteps.PassesBounded | pkg/util/trigger.go:132-140 | the waiter passes its wake-up at most once for each token buffered, about to be sent or requested later |
| TriggerSteps.MovesBounded | pkg/util/trigger.go:109-142 | the waiter's steps use up a measure of tokens and unsent calls that only requests add to |
| TriggerSteps.StuckIff | pkg/util/trigger.go:132-140 | the waiter cannot go on if and only if it has stopped, or waits without token before the shutdown |
| TriggerSteps.ClosedIff | pkg/util/trigger.go:104-140 | in every run the close channel is closed if and only if `Shutdown` has been called, and only then does the waiter stop |
| TriggerSteps.RestIsServed | pkg/util/trigger.go:92-142 | where the waiter rests with no caller in mid-call and without having stopped, all requests are served |
| TriggerSteps.ShutdownTerminates | pkg/util/trigger.go:104-142 | after a shutdown the waiter has stopped, or it can go on and has made fewer steps than a bound of tokens, unsent calls and later requests; so with finitely many requests it stops |
| TriggerSteps.ShutdownRunsOnce | pkg/util/trigger.go:134-140 | by then the shutdown function has run exactly once, if there is one, and no run starts any more |
| LinkedList.List.New | pkg/util/queue.go:26-32 | holds the given values in order |
| LinkedList.List.Add | pkg/util/queue.go:35-47 | keeps the chain and appends the values |
| LinkedList.List.Append | pkg/util/queue.go:50-52 | the same |
| LinkedList.List.Prepend | pkg/util/queue.go:55-65 | keeps the chain and puts the values in front, in their order |
| LinkedList.List.Get | pkg/util/queue.go:69-81 | the value at an index in range, else the zero value and false; never follows nil |
| LinkedList.List.Pop | pkg/util/queue.go:83-91 | takes the first value away, if any |
| LinkedList.List.Remove | pkg/util/queue.go:94-124 | keeps the chain, `last` included, and leaves out the one element at an index in range; else no change |
| LinkedList.List.Values | pkg/util/queue.go:127-133 | a new array with all values in order |
| LinkedList.List.Clear | pkg/util/queue.go:146-150 | empties the list |
| LinkedList.List.Swap | pkg/util/queue.go:153-166 | exchanges the values at two positions in range and leaves every other one, in one walk that ends and never follows nil; else no change |
| LinkedList.List.Insert | pkg/util/queue.go:171-210 | the values come before the element at an index in range, or at the end, through either splice; otherwise no change |
| LinkedList.List.Set | pkg/util/queue.go:215-230 | replaces the value at a position in range and leaves every other one, appends at the end; else no change |
| LinkedList.InsertThenRemove | pkg/util/queue.go:94-210 | removing as many values as were inserted at the place gives the old list |
| LinkedList.InsertInsert | pkg/util/queue.go:50-210 | two insertions at one place are one; prepending and appending are insertions at the two ends |
| LinkedList.SwapTwice | pkg/util/queue.go:153-166 | swapping twice is the identity for any two indices |
| MultiQueue.MultiQueue.constructor | pkg/util/multiqueue.go:13-18 | no names |
| MultiQueue.MultiQueue.Push | pkg/util/multiqueue.go:22-31 | appends to the named queue, creating it if need be; the lists' elements stay apart and every other list is unchanged, element by element |
| MultiQueue.MultiQueue.Pop | pkg/util/multiqueue.go:35-43 | takes the first value of the named queue, if any; every other list is unchanged, element by element |
| MultiQueue.FirstInFirstOut | pkg/util/multiqueue.go:22-43 | in every run and for every name, what was popped followed by what is queued is what was pushed, in order |
| PoolStore.Controller.DeletePool | pkg/ippool/spiderpool/controller.go:203-245 | which result answers which state; what is left keeps its addresses, namespaces and users, has all excluded if the patch succeeds, and loses the controller's finalizer only with all excluded and none in use; a successful delete leaves it gone or marked in every branch |
| PoolStore.Controller.UpdatePool | pkg/ippool/spiderpool/controller.go:247-296 | which error answers which state, with nothing changed; otherwise lists capacity and namespaces once each, excludes exactly the listed addresses that are gone, and keeps the rest |
| PoolStore.DroppedIff | pkg/ippool/spiderpool/controller.go:276-280 | the excluded addresses are exactly the listed ones that the pool no longer has |
| PoolStore.DroppedInOrder | pkg/ippool/spiderpool/controller.go:276-280 | they keep their order, and there are no more than were listed |
| PoolLife.NilIffGoneForGood | pkg/ippool/spiderpool/controller.go:207-218 | in every run `deletePool` returns nil if and only if the lookup succeeds and finds nothing, and from then on nothing changes any more |
| PoolLife.FinalizerRemovedLast | pkg/ippool/spiderpool/controller.go:227-242 | in every run an object loses the finalizer, or goes away, only in a `deletePool` that finds every address excluded and none allocated |
| PoolLife.SafeStep | pkg/ippool/spiderpool/controller.go:203-289 | an event keeps a pool guarded if and only if it is not a `deletePool` that writes the finalizer off and then fails to delete |
| PoolLife.NothingOutlivesItsPool | pkg/ippool/spiderpool/controller.go:203-289 | in runs without such a call no pool goes away while one of its addresses is in use |
| PoolLife.SafeRunIff | pkg/ippool/spiderpool/controller.go:203-289 | all states of a run are guarded if and only if it has no such call |
| PoolLife.GuardIsLost | pkg/ippool/spiderpool/controller.go:219-242 | from every adopted object without an address in use, two calls that only fail to delete lead to an address that outlives its pool |
| PoolLife.LeakIffUnguarded | pkg/ippool/spiderpool/controller.go:219-242 | some run without failing call loses an address in use if and only if the object it starts from has lost its guard |
| PoolLife.ThirdCallReturnsNil | pkg/ippool/spiderpool/controller.go:203-245 | with no failing call, no allocation and no foreign finalizer, the third `deletePool` returns nil at the latest, whatever happens in between |
| PoolWatermark.CalPoolEvent | pkg/vpc/vpc.go:465-513 | exactly which outcome answers which input; the addresses asked for are the shortfall from the low level, the event gains the pairs of exactly the addresses taken away, and the pool is published when all is well |
| PoolWatermark.TrimExcess | pkg/vpc/vpc.go:487-509 | for every order of the free addresses: those walked over that the interface knows leave the capacity and join the event |
| PoolWatermark.TrimmingIsSafe | pkg/vpc/vpc.go:487-509 | only unused addresses leave, at most the surplus and exactly the surplus when the interface knows all free ones; what stays free is not below the high level |
| PoolWatermark.BothAskedIff | pkg/vpc/vpc.go:481-509 | adding and trimming are both asked for only if the pool lies between crossed levels, so never with the low level at most the high one; exactly then when the interface knows all free addresses |
| PoolWatermark.LeftAvailable | pkg/vpc/vpc.go:487-509 | a round takes away the surplus, but for at most as many addresses as there are free ones unknown to the interface |
| PoolWatermark.Converges | pkg/vpc/vpc.go:470-512 | after a round whose event was applied the available count lies between the levels, but for free addresses the interface does not know: at the low level if it was below, as it was in between, and at the high level from above when all are known; then the next round adds and removes nothing |
| PoolWatermark.PublishedSafely | pkg/ippool/spiderpool/controller.go:270-284 | after a round no address is both listed and excluded, every listed one is in exactly one of the lists, trimmed ones are excluded, and those in use stay usable |
| Lockfile.Kernel.SetLock | pkg/lock/lockfile/lockfile_linux.go:78-94 | granted exactly when, for an exclusive lock, everybody else holds none and, for a shared one, nobody else an exclusive one; else no change; an exclusive lock keeps excluding all others |
| Lockfile.HoldersDecide | pkg/lock/lockfile/lockfile_linux.go:71-94 | while one handle holds an exclusive lock no other is granted any; beside a shared lock others are granted shared ones only |
| Lockfile.Lockfile.TryLock | pkg/lock/lockfile/lockfile_linux.go:51-53 | takes an exclusive lock if everybody else holds none, a shared one if nobody else holds an exclusive one, or fails at once and changes nothing |
| Lockfile.Lockfile.Unlock | pkg/lock/lockfile/lockfile_linux.go:62-64 | always succeeds and drops only this handle's lock |
| Lockfile.Lockfile.Close | pkg/lock/lockfile/lockfile_linux.go:42-46 | drops this handle's lock for good |
| LockfileSteps.InvStep | pkg/lock/lockfile/lockfile_linux.go:70-117 | every step of callers, workers, clean-ups and the kernel, with any number of attempts on a handle, keeps: a result is on its way exactly as long as someone will take it, and a lock has someone who knows of it or will |
| LockfileSteps.NothingLeaks | pkg/lock/lockfile/lockfile_linux.go:96-116 | in every run, however handles are used, a granted lock has a user who was told of one, or a result on its way to a caller or clean-up, or a clean-up that will drop it |
| LockfileSteps.TakenOnce | pkg/lock/lockfile/lockfile_linux.go:98-111 | each call's result is taken once, also with grant and cancellation both ready, and all are when the handle is quiet |
| LockfileSteps.ToldTruly | pkg/lock/lockfile/lockfile_linux.go:55-117 | in every careful run a user told of a lock holds just that one, and a user told of an exclusive one is the only one told of any |
| LockfileSteps.QuietIsSettled | pkg/lock/lockfile/lockfile_linux.go:102-116 | in every careful run a handle that is quiet holds exactly what its user was told of |
| LockfileSteps.CleanupBounded | pkg/lock/lockfile/lockfile_linux.go:98-114 | in every run an attempt makes at most four steps from its system call to the end of its clean-up |
| LockfileSteps.CleanupStuckIff | pkg/lock/lockfile/lockfile_linux.go:106-114 | a clean-up cannot go on if and only if it is over, or its system call waits for others to let go |
| LockfileReuse.MisleadsIff | pkg/lock/lockfile/lockfile_linux.go:70-117 | from every reachable state, a call can lead, with no further calls on its handle, to a user told of a lock that is not held, if and only if some clean-up of the handle has a result that is not a failure, or the call can be cancelled and the handle is locked |
| LockfileReuse.QuietSuffices | pkg/lock/lockfile/lockfile_linux.go:61-64 | with nothing under way on the handle, and unlocked before a call that can be cancelled, no call is of that kind |
| LockfileReuse.SecondOwner | pkg/lock/lockfile/lockfile_linux.go:106-114 | after every call of that kind another handle can be told of an exclusive lock while this user is told of one |
| LockfileReuse.TwoExclusiveOwners | pkg/lock/lockfile/lockfile_linux.go:106-114 | a concrete run that reuses a handle during clean-up and ends with two users told of an exclusive lock |
| SemaphoredMutex.Weighted.Acquire | vendor/golang.org/x/sync/semaphore/semaphore.go:40-58 | takes the weight if it fits and nobody waits, else joins the queue at its end; a weight above the size never queues |
| SemaphoredMutex.Weighted.Release | vendor/golang.org/x/sync/semaphore/semaphore.go:98-107 | panics when more is given back than is out, else admits who fits |
| SemaphoredMutex.NotifyAdmitsPrefix | vendor/golang.org/x/sync/semaphore/semaphore.go:109-136 | those admitted are the longest prefix of the queue that fits |
| SemaphoredMutex.SemaphoredMutex.constructor | pkg/lock/semaphored_mutex.go:21-25 | an unheld semaphore of `maxReaders` |
| SemaphoredMutex.SemaphoredMutex.Lock | pkg/lock/semaphored_mutex.go:27-31 | had at once only when nobody holds and nobody waits |
| SemaphoredMutex.SemaphoredMutex.RLock | pkg/lock/semaphored_mutex.go:43-47 | had at once only when nobody waits and there is weight left |
| SemaphoredMutex.SemaphoredMutex.Unlock | pkg/lock/semaphored_mutex.go:39-41 | gives all weight back and admits who fits |
| SemaphoredMutex.SemaphoredMutex.RUnlock | pkg/lock/semaphored_mutex.go:49-51 | gives weight one back and admits who fits |
| SemaphoredMutex.SemaphoredMutex.UnlockToRLock | pkg/lock/semaphored_mutex.go:35-37 | keeps weight one and admits who fits |
| SemaphoredMutex.InvStep | pkg/lock/semaphored_mutex.go:18-51 | every well-bracketed step keeps: weight out is `maxReaders` times writers plus readers and at most `maxReaders`, the first in the queue does not fit, and grants follow the order of requests |
| SemaphoredMutex.WriterExcludesAll | pkg/lock/semaphored_mutex.go:27-51 | in every such run a writer is alone |
| SemaphoredMutex.NoUnderflow | pkg/lock/semaphored_mutex.go:35-51 | no release of such a run panics |
| SemaphoredMutex.ServedInTurn | vendor/golang.org/x/sync/semaphore/semaphore.go:109-136 | locks are granted in the order asked for, and nobody waits for a lock that nobody holds |
| SemaphoredMutex.ServedHold | pkg/lock/semaphored_mutex.go:27-51 | of all requests of a run, in order, a first part has been served, and every goroutine holds, as writer and as reader, exactly what it was served less what it unlocked |
| SemaphoredMutex.DowngradeKeepsWritersOut | pkg/lock/semaphored_mutex.go:33-37 | from a downgrade until that reader unlocks no writer gets in, whatever the others do |

## Left out

- Counters are unbounded: the wrap-around of `int64` and `int` is not modelled.
- The scheduler and Go's `select` choose arbitrarily; nothing is said about fairness. Results that need progress bound the steps of a goroutine instead.
- `WaitChannel` returns the channel that `Wait` reads.
- A second `Shutdown` panics in the source; a precondition excludes it.
- LinkedList.List.Insert: excludes inserting no values before the first element of a non-empty list, for which the source follows a nil pointer (lines 189-200).
- `List.Empty`, `List.Size` and `List.String` are one-line readings of the same fields or formatting.
- `MultiQueue.Iter` hands each list's values to a callback from elsewhere. The comments on `Push` and `Pop` mention a global queue that the code does not have, and neither does the model.
- Cancelled and non-waiting acquisitions of the semaphore are left out, since the lock uses neither.
- SemaphoredMutex.WriterExcludesAll: as the other results on runs, it is about goroutines that release only what they hold and make no call while they wait, as the source expects.
- LockfileSteps.ToldTruly: is about calls that are careful in the sense of `MisleadsIff`, which shows that this is needed.
- Calls on one file lock handle come one at a time. The unlock of a clean-up does not fail in the model.
- Lockfile.Lockfile.Close: may not be called while a call is under way on the handle. Opening the file is input and output.
- The kernel's lock table locks whole files, as the source asks it to; other processes are further handles.
- PoolWatermark.CalPoolEvent: takes one round as atomic, although addresses are allocated meanwhile (the source notes the race in line 505), and takes each key of `Second` to be its entry's address and `remove` to be an initialised set.
- PoolWatermark.TrimmingIsSafe: takes the high level not to be negative; a negative one asks for more than is free.
- PoolWatermark.Converges: is about an infrastructure that applies the event and usage that stays as it was.
- PoolStore.Controller.DeletePool: takes `AllocatedIPCount` as the number of addresses in use, an unset count as zero, and a nil list of addresses as equal to an empty one, which `reflect.DeepEqual` tells apart. Its calls to the API server succeed or fail as a whole after the retries of `Backoff`, and nobody writes the object in between.
- `UpdatePool` with a create or delete event: the one compares and creates objects, the other is the plain delete of `PoolLife`.
- Reconciling nodes, namespaces, subnats and pools, the OpenStack client, the daemon and its flags: calls into libraries and logging.
