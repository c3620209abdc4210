# Synchronisation and user-level threads: a verified model

The repository holds the programs of an operating-systems course. This project models the parts of it that are real
concurrent or runtime code, and proves what each is for, over every run.

* **Pool, latch and parallel adder** (`Pool.dfy`, `Latch.dfy`, `Segments.dfy`, `Adder.dfy`,
  `AdderProgress.dfy`). A pool of workers with poison-pill shutdown, a countdown latch that broadcasts after unlocking,
  and a fork-join sum over both. `Adder.dfy` composes the two transition systems with the work function and leaves the
  pool open to other clients, who may submit and shut down at any moment.
* **Channel and echo protocol** (`Ring.dfy`, `Channel.dfy`, `Echo.dfy`, `EchoService.dfy`). A ring of bytes in shared
  memory, the condition-variable protocol around it with one signal after each unlock, and a request/reply protocol in
  which every client has a reply channel with room for one message: first over atomic channels, then over the real
  ones, with their waits and signals, which are shown to simulate it.
* **Cyclic barrier** (`Barrier.dfy`), with stragglers that wake in a later round, and a round counter that may wrap.
* **User-level threads** (`Scheduler.dfy`, `Semaphore.dfy`, `SemQueue.dfy`, `Runtime.dfy`, `ContextSwitch.dfy`,
  `PrivateContexts.dfy`). The cooperative scheduler, the counting semaphore with multi-unit requests, the event, a
  bounded queue made of two semaphores and no mutex, and the assembly that switches stacks, which is shown to refine a
  machine where each thread owns its registers, its return point and its stack.

## How the code is modelled

Each object that the source updates in place is a class with the source's fields. A method is one critical section:
from taking the lock, or waking up, to the unlock or the wait. Its contract gives the new state as a specification
function of the old one. `View()` is the value of the fields.

Each concurrent program is a transition system over these functions. A state holds the shared fields and a program point
for every thread; a step is one critical section, or a signal or broadcast sent after the unlock. Waiting on a condition
variable releases the lock and blocks in one step, and a blocked thread may wake with no cause at any time. A signal
wakes one thread blocked on the condition variable, any one, or nobody when there is none. The number of threads, the
programs they run and the interleaving are arbitrary. `Run(s, steps, s')` holds when `steps` leads from `s` to `s'`, and
the main results are stated for all runs from the initial state.

The history a property speaks of (items put, rounds completed, requests granted) is recorded in the state beside the
program's own variables and is never read by a step.

Objects are assumed to outlive the signals still pending on them. The source signals after unlocking, and `par_adder`
keeps its latch on its own stack, so the C program relies on this too; nothing is claimed about storage lifetime.

## Where the code does not do what one might expect

Each of these is proved with its exact condition.

* `par_adder` leaves the last `size % NPROCESSORS` elements out. On all vectors of a size it returns what `seq_adder`
  does exactly when the number of segments divides the size, and on one vector exactly when the elements left out add up
  to zero (`Segments.AgreeExactlyWhenDivisible`, `Adder.AdderIsCorrect`).
* `tp_shutdown` on a pool without workers waits for ever, and otherwise it always completes (`Pool.ShutdownCompletes`).
* `par_adder` on a pool without workers, or one that refuses a segment because it is being shut down, never passes its
  wait; in every other case it can always still return (`AdderProgress.ReturnsExactly`).
* A channel or semaphore queue of capacity zero blocks senders and receivers together, and no other capacity does
  (`Channel.DeadlockExactlyAtZeroCapacity`, `SemQueue.DeadlockExactlyWithoutRoom`); the echo programs come to their end
  exactly when the service channel has room or nothing is to be sent (`EchoService.ServiceCompletesExactly`).
* A barrier with fewer threads than parties, or with no parties, never releases anybody, and any other can
  (`Barrier.ReleasableExactly`). A round counter that wraps, whatever its number of values, is harmless in all runs
  exactly when there is one party at most or there are no more threads than parties
  (`Barrier.WrappingIsHarmlessExactly`); otherwise `Barrier.StragglerMissesWrappedRound` builds a run in which a waiter is
  put back to sleep.
* A semaphore request above the limit is never granted, nor is any behind it, and with a limit of zero no
  waiter is; all others can be (`Semaphore.GrantableExactly`). A zero request at the head is passed over exactly when the units have run
  out (`Semaphore.ReleasesLongestPrefix`, with an instance in `Semaphore.ZeroRequestIsPassedOver`). Two posts agree with
  one of both amounts exactly when the limit allows both, or the second is of nothing, or the first waiter that asks
  for any units asks for more than the first post provides (`Semaphore.PostsAgreeExactly`, with an instance of the
  difference in `Semaphore.PostsDoNotAddUpAboveLimit`).
* The comment and assertion in the later `ut_run` (aula-05-19/uthreads/uthread/uthread.c:198) say that no thread is left
  when it returns. That holds exactly when all wait lists are empty then (`Runtime.NobodyIsLeftExactly`), and a program
  can return with a thread left exactly when it has an event or a semaphore at all (`Runtime.LeftoverExactly`).

## Model

| member | source | states |
|---|---|---|
| `ContextSwitch.Machine.ContextSwitch` | aula-05-12/uthreads0/uthread/ctxswitch0.s:23-64 | the pushes, moves and pops leave exactly: the caller's six registers in a frame below its return address, the frame's address in the caller's descriptor, `running_thread` changed, and registers, stack pointer and program counter taken from the frame the next descriptor points at; nothing else in memory |
| `ContextSwitch.FrameLayout` | aula-05-12/uthreads0/uthread/ctxswitch_test.c:38-50 | the saved words lie in the order the source gives for a context, from the stack pointer up: r15, r14, r13, r12, rbx, rbp, return address |
| `ContextSwitch.Machine.InternalExit` | aula-05-12/uthreads0/uthread/ctxswitch0.s:69-98 | the next thread's context is loaded from its frame after `cleanup_thread` has run on that same stack, below the frame |
| `ContextSwitch.CleanupTakesEffect` | aula-05-12/uthreads0/uthread/ctxswitch0.s:83 | what `cleanup_thread` writes last at an address is there when the next thread resumes |
| `ContextSwitch.Machine.UtInit` | aula-05-12/uthreads0/uthread/ctxswitch_test.c:37-51 | a new thread's saved stack pointer is seven words below the end of its stack and the entry point is the word that will be popped as return address |
| `PrivateContexts.SavedMemory` | aula-05-12/uthreads0/uthread/ctxswitch0.s:30-40 | the frame that is saved reads back as the caller's own registers, return address and stack, and no word outside frame and descriptor changes |
| `PrivateContexts.OwnStepRefines` | aula-05-12/uthreads0/uthread/ctxswitch_test.c:18-31 | whatever the running thread computes, pushes, pops and writes in its own block or the heap changes only its own private context |
| `PrivateContexts.CreateRefines` | aula-05-12/uthreads0/uthread/uthread0.c:47-68 | carving block and descriptor of a new thread out of the heap adds a thread that will start at its entry point and leaves all other contexts as they were |
| `PrivateContexts.SwitchRefines` | aula-05-12/uthreads0/uthread/ctxswitch0.s:23-64 | a switch, also to oneself, is in the abstract machine just a change of the running thread that records the caller's return point |
| `PrivateContexts.ExitRefines` | aula-05-12/uthreads0/uthread/ctxswitch0.s:69-98 | an exit removes the exiting thread and nothing else, though cleanup runs on the next thread's stack and overwrites freed memory |
| `PrivateContexts.RunRefines` | aula-05-12/uthreads0/uthread/ctxswitch0.s:23-98 | every run over one shared memory is, step by step, a run of the machine in which each thread owns its context |
| `PrivateContexts.StepKeepsOthers` | aula-05-12/uthreads0/uthread/ctxswitch0.s:23-98 | no step changes the context of a thread that is not running |
| `PrivateContexts.WaitsUnchanged` | aula-05-12/uthreads0/uthread/ctxswitch0.s:23-98 | so a thread that is not dispatched keeps its context, block and descriptor through any run |
| `PrivateContexts.ResumedExactly` | aula-05-12/uthreads0/uthread/ctxswitch0.s:23-98 | a thread that switches out and is later dispatched has the same six registers, stack depth, stack contents and return address, after any run of the others |
| `PrivateContexts.SwitchThereAndBack` | aula-05-12/uthreads0/uthread/ctxswitch_test.c:18-31 | a thread that has been switched to can always switch back, and the first one then has its registers, stack depth and return point again |
| `PrivateContexts.SwitchThereAndExit` | aula-05-12/uthreads0/uthread/ctxswitch0.s:69-98 | it can also exit to the first one, which then has them again, and is gone itself |
| `PrivateContexts.NewThreadStartsAtEntry` | aula-05-12/uthreads0/uthread/uthread0.c:47-68 | a new thread, when first switched to, is at its entry point with an empty stack |
| `Scheduler.SchedulerObject.NextThread` | aula-05-12/uthreads0/uthread/uthread0.c:70-79 | takes the head of the ready queue, or main when it is empty |
| `Scheduler.SchedulerObject.Schedule` | aula-05-12/uthreads0/uthread/uthread0.c:82-87 | the running thread gives way to the next one and is not queued |
| `Scheduler.SchedulerObject.UtActivate` | aula-05-12/uthreads0/uthread/uthread0.c:64-67 | the thread goes to the tail of the ready queue and nobody switches |
| `Scheduler.SchedulerObject.UtYield` | aula-05-12/uthreads0/uthread/uthread0.c:89-94 | the caller goes to the tail and the head runs; nothing happens when nobody is ready |
| `Scheduler.SchedulerObject.UtRun` | aula-05-12/uthreads0/uthread/uthread0.c:100-103 | main gives way to the first ready thread |
| `Scheduler.RunsInTurn` | aula-05-12/uthreads0/uthread/uthread0.c:47-94 | the thread at ready position k is the one that runs after exactly k + 1 dispatches, whatever others create, yield, wake or leave |
| `Scheduler.ThreadsRunTheirPrograms` | aula-05-12/uthreads0/uthread/uthread0.c:42-53 | in every run the actions a thread has performed, then those left, are its program, in order |
| `Scheduler.ChildrenRunWhatIsNamed` | aula-05-12/uthreads0/uthread/uthread0.c:47-68 | the j-th thread created on the way runs the j-th program named by a creator |
| `Scheduler.TableGrows` | aula-05-12/uthreads0/uthread/uthread0.c:47-68 | a run creates as many threads as it names programs |
| `Scheduler.ProgramsRunInTurn` | aula-05-12/uthreads0/uthread/uthread0.c:35-94 | in every run of programs the scheduler does what the actions ask, so the ready threads are dispatched in turn |
| `Scheduler.StepKeepsInv` | aula-05-12/uthreads0/uthread/uthread0.c:35-94 | every live thread is running or ready exactly once and nobody else is, after each create, yield and exit |
| `Scheduler.ExitIsForGood` | aula-05-12/uthreads0/uthread/uthread0.c:35-40 | an exiting thread is not the target of its own switch, and a thread that has exited is never dispatched again |
| `Scheduler.MainRunsWhenNobodyIsLive` | aula-05-12/uthreads0/uthread/uthread0.c:70-103 | main runs if and only if no user thread has work left |
| `Scheduler.ProgramEnds` | aula-05-12/uthreads0/uthread/uthread0.c:35-103 | finite programs give control back to main after exactly as many actions as they contain, children included, and by then every thread has exited |
| `Scheduler.EveryProgramIsPerformed` | aula-05-12/uthreads0/uthread/uthread0.c:35-103 | by then each thread has performed exactly its own program |
| `Scheduler.UtRunEnds` | aula-05-12/uthreads0/uthread/uthread0.c:100-103 | `ut_run` on any list of new threads, also an empty one, ends so, and each has performed the program it was created with |
| `Semaphore.SemaphoreObject.constructor` | uthreads/uthread/semaphore.c:26-30 | the given units and limit and no waiters |
| `Semaphore.SemaphoreObject.Wait` | uthreads/uthread/semaphore.c:36-57 | takes the units only when nobody waits and they suffice, else queues the running thread and switches away |
| `Semaphore.SemaphoreObject.Drain` | uthreads/uthread/semaphore.c:76-89 | the loop terminates, releases as many waiters from the front as the recursive specification says, and takes their units |
| `Semaphore.SemaphoreObject.Post` | uthreads/uthread/semaphore.c:62-90 | the clamp and the draining loop leave the units and waiters of the specification and append the released threads to the ready queue in wait order |
| `Semaphore.ReleasesLongestPrefix` | uthreads/uthread/semaphore.c:76-89 | for all requests, zero ones included: the loop stops at a waiter whose request does not fit, or asks for nothing once the units have run out |
| `Semaphore.PostWakesLongestFit` | uthreads/uthread/semaphore.c:67-89 | with positive requests, a prefix of the waiters is released if and only if its requests together fit in the units, clamped to the limit |
| `Semaphore.ZeroRequestIsPassedOver` | uthreads/uthread/semaphore.c:76-89 | an instance in which a fitting request for nothing stays in the queue |
| `Semaphore.PostsAgreeExactly` | uthreads/uthread/semaphore.c:62-90 | for every semaphore and amounts a and b, posting a then b gives the state and wake order of posting a + b if and only if the limit allows both, or b is 0, or the first waiter asking for any units asks for more than post a provides, or there is none |
| `Semaphore.PostsAddUp` | uthreads/uthread/semaphore.c:62-90 | so below the limit the two always agree |
| `Semaphore.PostsDoNotAddUpAboveLimit` | uthreads/uthread/semaphore.c:67-69 | an instance of the case in which they do not |
| `Semaphore.FirstComeFirstServed` | uthreads/uthread/semaphore.c:36-90 | over every run that starts within the limit, grants followed by waiters are the requests in order, units stay within the limit, and the head of the queue asks for more than there is |
| `Semaphore.StepKeepsInv` | uthreads/uthread/semaphore.c:36-90 | the same for one wait or post, from any state in which it holds; grants are never taken back |
| `Semaphore.UnitsAreConserved` | uthreads/uthread/semaphore.c:36-90 | when callers post only what they hold, free and held units together never change and no post is clamped, at any point of any run |
| `Semaphore.NeverGranted` | uthreads/uthread/semaphore.c:67-89 | no run of waits and posts gets past a waiter that asks for more than the limit |
| `Semaphore.GrantableExactly` | uthreads/uthread/semaphore.c:67-89 | a waiter can be granted by some future if and only if the limit is positive and neither it nor anybody ahead of it asks for more |
| `SemQueue.StoredIsCut` | aula-05-19/uthreads/tests/queue_test.c:34-40 | a node holds the message itself if it is shorter than 128, else its first 127 characters |
| `SemQueue.QueueObject.constructor` | aula-05-19/uthreads/tests/queue_test.c:28-32 | an empty list, no elements and `max_size` spaces, both semaphores limited to `max_size` |
| `SemQueue.QueueObject.Put` | aula-05-19/uthreads/tests/queue_test.c:42-47 | takes a space, or queues the caller and switches away; with a space the message, cut at 127 characters, goes to the tail and one element is posted |
| `SemQueue.QueueObject.Get` | aula-05-19/uthreads/tests/queue_test.c:50-57 | takes an element, or queues the caller and switches away; with an element the head leaves the list and one space is posted |
| `SemQueue.QueueObject.FinishPut` | aula-05-19/uthreads/tests/queue_test.c:44-46 | the part after the wait, as a thread resumes it |
| `SemQueue.QueueObject.FinishGet` | aula-05-19/uthreads/tests/queue_test.c:52-55 | the part after the wait, as a thread resumes it |
| `SemQueue.StepKeepsInv` | aula-05-19/uthreads/tests/queue_test.c:42-57 | every step keeps: list length = element units + getters granted and not resumed, space units + putters granted and not resumed + list length = `max_size`, and each wait list holds exactly the threads blocked there |
| `SemQueue.QueueIsCorrect` | aula-05-19/uthreads/tests/queue_test.c:28-57 | in every cooperative run and resumption order messages leave in insertion order, capacity is respected, no removal meets an empty list and no unit is lost to a limit |
| `SemQueue.SendersAreFaithful` | aula-05-19/uthreads/tests/queue_test.c:42-47 | in every run what a thread has stored, then what it carries into its wait, are in order the texts it has called `queue_put` with, cut to what a node holds |
| `SemQueue.PutCompletesExactly` | aula-05-19/uthreads/tests/queue_test.c:42-47 | a put is complete at once if and only if messages and granted putters leave room, and a granted one stores its own message |
| `SemQueue.GetCompletesExactly` | aula-05-19/uthreads/tests/queue_test.c:50-57 | a get is complete at once, with the oldest message, if and only if there are more messages than granted getters, and a granted one always finds one |
| `SemQueue.NoUnitIsLost` | uthreads/uthread/semaphore.c:67-69 | no put or get posts to a semaphore that is at its limit |
| `SemQueue.DeadlockExactlyWithoutRoom` | aula-05-19/uthreads/tests/queue_test.c:28-57 | senders and receivers can be stuck together if and only if `max_size` is zero |
| `Runtime.EventObject.constructor` | aula-05-14/uthreads1/uthread/event.c:14-17 | the given state and no waiters |
| `Runtime.EventObject.Wait` | aula-05-14/uthreads1/uthread/event.c:20-28 | returns at once when signaled, else queues the running thread and switches away |
| `Runtime.EventObject.Set` | aula-05-14/uthreads1/uthread/event.c:31-38 | terminates with the event signaled, no waiters, and all of them in the ready queue once, in arrival order |
| `Runtime.EventObject.Clear` | aula-05-14/uthreads1/uthread/event.c:40-42 | only the flag changes |
| `Runtime.WaitPassesExactly` | aula-05-14/uthreads1/uthread/event.c:20-42 | in every run a wait changes nothing if and only if the last set or clear of the event, or else its creation, has left it signaled |
| `Runtime.ServedInOrder` | aula-05-14/uthreads1/uthread/event.c:20-38 | in every run the threads that an event, or a semaphore, has put in the ready queue, then those in its wait list, are those that have blocked on it, in order |
| `Runtime.ReadyThreadsRunInTurn` | aula-05-14/uthreads1/uthread/event.c:31-38 | in every run with events and semaphores the k-th ready thread is the k-th to be dispatched |
| `Runtime.LivesUntilExit` | aula-05-12/uthreads0/uthread/uthread0.c:35-68 | in every run a thread is live exactly from its creation to its exit |
| `Runtime.StepKeepsInv` | aula-05-14/uthreads1/uthread/event.c:20-42 | create, yield, exit, and waits and posts on any number of events and semaphores keep each live thread in exactly one place |
| `Runtime.EachThreadIsInOnePlace` | aula-05-14/uthreads1/uthread/event.c:20-38 | in every run each live thread is in exactly one of running, ready and one wait list, an exited one in none, so a wait block on a stack is unlinked before its owner runs; a signaled event has no waiters |
| `Runtime.MainResumesWhenAllAreBlocked` | aula-05-12/uthreads0/uthread/uthread0.c:70-103 | when a switch returns to main, and so `ut_run` returns, every live thread is in exactly one wait list and nobody else in any |
| `Runtime.NobodyIsLeftExactly` | aula-05-12/uthreads0/uthread/uthread0.c:100-103 | no thread is left then if and only if every wait list is empty |
| `Runtime.LeftoverExactly` | aula-05-14/uthreads1/uthread/event.c:20-28 | some run returns to main with a thread left if and only if there is an event or a semaphore to block on |
| `Pool.PoolObject.constructor` | aula-06-02/tpool.c:46-71 | an empty queue, all workers remaining, no shutdown |
| `Pool.PoolObject.Submit` | aula-06-02/tpool.c:74-91 | the item goes to the tail, or is refused if and only if the shutdown has begun |
| `Pool.PoolObject.Take` | aula-06-02/tpool.c:10-20 | waits if and only if the queue is empty, else removes the first item |
| `Pool.PoolObject.Retire` | aula-06-02/tpool.c:27-38 | the last worker to retire, and no other, sets `shutdown_done` |
| `Pool.PoolObject.Shutdown` | aula-06-02/tpool.c:94-109 | the first call queues one pill per worker behind the work; later ones change nothing |
| `Pool.StepKeepsInv` | aula-06-02/tpool.c:5-134 | queue = unstarted work in order, then pills; pills queued + held + workers gone = pool size; each item taken is running once or finished once; sleeping workers are covered by signals and checks |
| `Pool.NoLostWork` | aula-06-02/tpool.c:10-20 | a worker asleep on `has_work` implies that the queue is no longer than the signals still owed plus the workers about to look |
| `Pool.ShutdownDrains` | aula-06-02/tpool.c:93-116 | past the wait loop of `tp_shutdown` every item accepted before it has been completed exactly once, nothing later was accepted, the queue is empty and every worker has gone |
| `Pool.ShutdownCheckReleasesExactly` | aula-06-02/tpool.c:114-118 | in every run the wait loop of `tp_shutdown` lets its caller go if and only if all workers, and at least one, have terminated |
| `Pool.StaysAwake` | aula-06-02/tpool.c:12-16 | after the shutdown has begun no worker blocks on `has_work` again |
| `Pool.ShutdownNeverStalls` | aula-06-02/tpool.c:10-38 | while worker steps are due some worker can take one, and none are due if and only if `shutdown_done` is set |
| `Pool.ShutdownCountsDown` | aula-06-02/tpool.c:10-38 | in any run of the shutdown the steps due go down by one with every worker step and with no other |
| `Pool.FinishShutdown` | aula-06-02/tpool.c:10-38 | from every state of the shutdown the workers alone can bring it to its end |
| `Pool.ShutdownCompletes` | aula-06-02/tpool.c:93-116 | `shutdown_done` is set, once, after exactly the worker steps counted beforehand, in any interleaving, if and only if the pool has a worker; the caller is then not asleep |
| `Pool.ShutdownReturnsExactly` | aula-06-02/tpool.c:93-118 | from every reachable state of a shutdown its caller can come to leave the wait loop if and only if the pool has a worker |
| `Pool.StepIsIdleExactly` | aula-06-02/tpool.c:5-118 | the only calls without effect are a refused submission and a second shutdown |
| `Pool.AnyWaitMayReturn` | aula-06-02/tpool.c:12-16 | a worker, and the caller of `tp_shutdown`, may wake with all that the mutex protects as it was |
| `Latch.LatchObject.constructor` | aula-06-02/cdl.c:4-8 | the counter is the initial count |
| `Latch.LatchObject.Signal` | aula-06-02/cdl.c:10-23 | decrements, and owes the broadcast exactly on reaching zero |
| `Latch.CheckPassesExactly` | aula-06-02/cdl.c:25-32 | in every run the test in `cdl_wait` lets a caller go if and only if as many signals have been made as were counted on |
| `Latch.LatchSafety` | aula-06-02/cdl.c:10-32 | from a positive count exactly one signaller owes or has made the broadcast once it is due; nobody passes early, spurious wake-ups notwithstanding; a thread still blocked after that has the broadcast pending |
| `Latch.StepKeepsInv` | aula-06-02/cdl.c:10-32 | each signal, broadcast, check and spurious wake-up keeps the facts behind this |
| `Latch.AnyWaitMayReturn` | aula-06-02/cdl.c:25-32 | a blocked waiter may wake with the counter as it was |
| `Latch.PendingDecreases` | aula-06-02/cdl.c:25-32 | once the count is exhausted each step inside the latch lowers the number of steps left |
| `Latch.NoWaiterIsStranded` | aula-06-02/cdl.c:10-32 | as long as any are left, a thread that is not blocked can take one; none are left if and only if every thread is out |
| `Segments.SumSegment` | aula-06-02/tp_adder.c:27-37 | the work function's loop computes the sum of its segment |
| `Segments.SeqAdder` | aula-06-02/tp_adder.c:40-45 | the sequential loop computes the sum of the first `nvals` elements |
| `Segments.FillContexts` | aula-06-02/tp_adder.c:56-64 | the loop gives context i its segment and a zero result |
| `Segments.Aggregate` | aula-06-02/tp_adder.c:74-79 | adding the partial results gives the sum of all elements covered |
| `Segments.SegmentsAreAdjacent` | aula-06-02/tp_adder.c:55-64 | each segment lies in the vector and ends where the next begins; the clamp at the end never acts |
| `Segments.WholePartsFit` | aula-06-02/tp_adder.c:50 | the segments together cover the size rounded down to a multiple of their number |
| `Segments.SumFitsLong` | aula-06-02/tp_adder.c:30-33 | a 64-bit sum of 32-bit elements counted by a 32-bit size does not overflow |
| `Segments.LeftOver` | aula-06-02/tp_adder.c:47-79 | the difference between the two adders is the sum of the elements in no segment |
| `Segments.AgreeExactlyWhenDivisible` | aula-06-02/tp_adder.c:40-79 | the two adders agree on all vectors of a size if and only if the number of segments divides it |
| `Adder.OneWorkerPerSegment` | aula-06-02/tp_adder.c:27-37 | no two workers ever compute the same segment |
| `Adder.StepKeepsInv` | aula-06-02/tp_adder.c:27-80 | each step of pool, latch, workers, other clients and caller keeps: partial sums are sums of the part read, a signalled segment has its final result, and the latch has been signalled once per such segment |
| `Adder.ResultsAreFinal` | aula-06-02/tp_adder.c:70-79 | past `cdl_wait` every segment was accepted, every result is in place, and no later step of anybody changes one |
| `Adder.AdderIsCorrect` | aula-06-02/tp_adder.c:47-80 | in every interleaving the total is the sum of the elements covered, and that of `seq_adder` if and only if the rest adds up to zero |
| `Adder.NoAccumulatorOverflows` | aula-06-02/tp_adder.c:27-80 | no partial sum of a worker or of the caller leaves 64 bits, in any reachable state |
| `Adder.AdderIsNeverStranded` | aula-06-02/tp_adder.c:66-70 | while the caller waits with all its segments accepted by a pool that has a worker, some thread can move the sum forward |
| `Adder.StepIsIdleExactly` | aula-06-02/tp_adder.c:27-80 | the only steps without effect are refused submissions and second shutdowns by other clients |
| `AdderProgress.StepBound` | aula-06-02/tp_adder.c:27-80 | each step of progress, of any thread, brings a measure over queue, workers, latch and caller down; a new call by a client or a spurious wake-up raises it by a bounded amount |
| `AdderProgress.ProgressIsBounded` | aula-06-02/tp_adder.c:27-80 | in any run the steps of progress are bounded by the measure at its start and the number of other steps |
| `AdderProgress.SomebodyGoesOn` | aula-06-02/tp_adder.c:47-80 | unless the total is complete some thread has a step of progress, if the pool has a worker and has not refused and is not bound to refuse a segment |
| `AdderProgress.RefusedNeverFinishes` | aula-06-02/tp_adder.c:66-70 | once a segment has been refused, or must be, no run ends with the caller returning |
| `AdderProgress.ReturnsExactly` | aula-06-02/tp_adder.c:47-80 | from any reachable state `par_adder` can still return if and only if the pool has a worker, every segment offered so far was accepted, and none is left to offer to a pool in shutdown |
| `Ring.Channel.constructor` | aula-06-09/ipc/memchannel/memchan.c:14-27 | an empty ring of `capacity` slots of `elem_size` bytes |
| `Ring.Channel.Put` | aula-06-09/ipc/memchannel/memchan.c:69-75 | waits if and only if full, else appends the item to the contents, copying byte by byte |
| `Ring.Channel.Get` | aula-06-09/ipc/memchannel/memchan.c:91-98 | waits if and only if empty, else hands out the oldest item and leaves the rest in order |
| `Ring.PutTouchesOneSlot` | aula-06-09/ipc/memchannel/memchan.c:72-75 | after a put the slot at `iput` is the item and every other slot is as before |
| `Ring.PutAppends` | aula-06-09/ipc/memchannel/memchan.c:72-75 | on the bytes of the ring a put is an append to a FIFO of items |
| `Ring.GetRemovesFirst` | aula-06-09/ipc/memchannel/memchan.c:95-98 | a get is the removal of the first |
| `Ring.WriteIndex` | aula-06-09/ipc/memchannel/memchan.c:72-75 | `iput` is `iget` + `size` modulo `capacity` |
| `Channel.StepKeepsFifo` | aula-06-09/ipc/memchannel/memchan.c:62-106 | each step keeps: items put = items got, then the contents of the ring |
| `Channel.StepKeepsWake` | aula-06-09/ipc/memchannel/memchan.c:62-106 | each step, spurious wake-ups included, keeps the cover of items and free slots by pending signals and awake threads |
| `Channel.ChannelIsFifo` | aula-06-09/ipc/memchannel/memchan.c:62-106 | over every run of any number of producers and consumers, items put = items got followed by the contents, byte for byte, within capacity |
| `Channel.NoLostWakeUp` | aula-06-09/ipc/memchannel/memchan.c:62-106 | a blocked getter implies items <= pending `hasItems` signals + awake getters; a blocked putter implies free slots <= pending `hasSpace` signals + awake putters |
| `Channel.EveryStepMoves` | aula-06-09/ipc/memchannel/memchan.c:62-106 | no call, wait, signal or wake-up is without effect |
| `Channel.AnyWaitMayReturn` | aula-06-09/ipc/memchannel/memchan.c:69-70 | every blocked thread may wake with the ring as it was, which is why the wait is in a loop |
| `Channel.QuietMeansEmptyOrFull` | aula-06-09/ipc/memchannel/memchan.c:62-106 | with nobody awake and no signal pending getters wait only on an empty ring and putters only on a full one |
| `Channel.DeadlockExactlyAtZeroCapacity` | aula-06-09/ipc/memchannel/memchan.c:62-106 | producers and consumers can be stuck together if and only if the capacity is zero |
| `Echo.StepKeepsInv` | aula-06-09/echo_service/echo_memchannel/echo_srv.c:23-41 | each step of server and clients keeps one message under way for each waiting client, which is the request it waits on |
| `Echo.EchoIsFaithful` | aula-06-09/echo_service/echo_memchannel/echo_cli.c:25-53 | for any clients and interleaving the i-th reply is the i-th request, a client has at most one message under way, and the server always finds the reply channel open and with room |
| `Echo.SomebodyCanMove` | aula-06-09/echo_service/echo_memchannel/echo_srv.c:23-41 | unless all replies are in, client or server can take a step |
| `Echo.StepCountsDown` | aula-06-09/echo_service/echo_memchannel/echo_cli.c:38-44 | every put and get of client or server takes one off the steps left, and the final destroy takes none |
| `Echo.ConversationsComplete` | aula-06-09/echo_service/echo_memchannel/echo_cli.c:38-51 | a run that can go no further has answered every request of every client, in exactly four steps each |
| `EchoService.StepKeepsInv` | aula-06-09/echo_service/echo_memchannel/echo_srv.c:23-41 | each call, critical section, signal and spurious wake-up of clients and server is one step of the protocol over atomic channels, or leaves its state as it is |
| `EchoService.RunSimulates` | aula-06-09/echo_service/echo_memchannel/echo_cli.c:38-51 | every run over real channels is a run of that protocol |
| `EchoService.ServiceIsFaithful` | aula-06-09/echo_service/echo_memchannel/echo_srv.c:23-41 | over real channels the i-th reply is the i-th request, and a server holding a message finds the reply channel there and empty |
| `EchoService.NobodyGetsStuck` | aula-06-09/echo_service/echo_memchannel/echo_cli.c:38-51 | while a reply is missing or a client has its channel still, some thread has a step that is no spurious wake-up |
| `EchoService.StepBound` | aula-06-09/echo_service/echo_memchannel/echo_srv.c:23-41 | every step, calls and wake-ups for a signal included, brings a measure over channels and requests down, and only a spurious wake-up raises it, by one |
| `EchoService.RunsAreBounded` | aula-06-09/echo_service/echo_memchannel/echo_srv.c:23-41 | a run is no longer than the measure at its start and twice its spurious wake-ups |
| `EchoService.ServiceCompletesExactly` | aula-06-09/echo_service/echo_memchannel/echo_cli.c:38-51 | from every reachable state all clients can still get all their replies and destroy their channels if and only if the service channel has room for a message or there is nothing to send |
| `EchoService.EveryStepMoves` | aula-06-09/echo_service/echo_memchannel/echo_srv.c:23-41 | no call and no wake-up is without effect |
| `Barrier.BarrierObject.constructor` | aula-06-04/barriers/barrier.c:5-12 | nobody has arrived and the round is zero |
| `Barrier.BarrierObject.Arrive` | aula-06-04/barriers/barrier.c:16-26 | counts the caller, and the last one of a round opens the next and is told not to wait |
| `Barrier.RecheckReleasesExactly` | aula-06-04/barriers/barrier.c:28-32 | in every run the test after a wake-up lets a caller go if and only if its round has had all its arrivals |
| `Barrier.StepKeepsThreads` | aula-06-04/barriers/barrier.c:16-40 | each step keeps `arrived` equal to the number of unreleased callers of the current round, and below `parties` |
| `Barrier.StepKeepsRounds` | aula-06-04/barriers/barrier.c:16-40 | each step keeps `parties` arrivals and one serial return for every completed round, and no return before its round is complete |
| `Barrier.StepKeepsDistinct` | aula-06-04/barriers/barrier.c:16-40 | each step keeps every thread at one arrival a round at most |
| `Barrier.BarrierSafety` | aula-06-04/barriers/barrier.c:16-40 | all of this over every run with any number of threads and spurious wake-ups; arrivals of a round are by different threads; nobody stays blocked on a round that is over |
| `Barrier.ReleasableExactly` | aula-06-04/barriers/barrier.c:19-26 | some run completes a round if and only if 1 <= parties <= number of threads |
| `Barrier.RoundsStayTogether` | aula-06-04/barriers/barrier.c:19-34 | with as many threads as parties no thread is more than one completed round ahead of another |
| `Barrier.WrappingIsHarmless` | aula-06-04/barriers/barrier.c:19-34 | with a single party, or no more threads than parties, the barrier with the round counted modulo any m >= 2 has exactly the runs of the unbounded one |
| `Barrier.WrappingIsHarmlessExactly` | aula-06-04/barriers/barrier.c:19-34 | for every m >= 2 it has exactly those runs if and only if there is one party at most or there are no more threads than parties |
| `Barrier.StragglerMissesWrappedRound` | aula-06-04/barriers/barrier.c:28-32 | for every m >= 2, at least two parties and more threads than that, a straggler that sleeps through m rounds is put back to sleep by the counter modulo m and released by the unbounded one |

## Left out

- Socket, FIFO, select, poll, epoll and libuv programs, fork, exec and mmap demonstrations, timing, printing: calls into
  the kernel, or easy arithmetic.
- aula-06-04/queues/queue.c, which passes the arguments of the other `sem_init`, and the draft in aula-05-27.
- Storage lifetime, failing allocation, `pthread` attributes and errors, process ids that come back, crashes, and the C
  memory model outside locks.
- `tp_submit` with a NULL function, which would be one more pill.
- The links of intrusive lists: wait lists, ready queue, work queue and message list are sequences, with insertion at
  the tail and removal at the head.
- Segments.FillContexts: the submission at the end of each iteration, and the pointer to the latch, are in `Adder`.
- Ring.Channel.Put: the signal after the unlock is a step of `Channel`, as it is for `Ring.Channel.Get`.
- Pool.PoolObject.Shutdown: the broadcast, the wait loop and the release of the pool's resources are not in the method;
  broadcast and wait are steps of the transition system.
- Machine integers, except for the barrier's round (any modulus) and the adder's 64-bit sums: counters, sizes and the
  product of element size and capacity are unbounded, sizes are not negative.
- The loop around each condition wait as code of a method: a method ends where the lock is given up, and the
  transition systems repeat the test after each wake-up.
- The echo server's and client's loops as methods: the server's never ends. They are steps over the channels; the
  formatting of texts and channel names is not modelled, a client number stands for the process id, and how a message
  lies in an item is any coding that can be read back.
- Strings with an embedded terminator in the queue's messages.
- Termination of the functions other clients submit, and fairness of the thread scheduling: shutdown, adder and
  echo programs are shown to need a bounded number of steps, one of which can always be taken.
- ContextSwitch.Machine.ContextSwitch: words are unbounded and addressed by index, and stack alignment, flags and
  floating-point registers are not part of the machine.
- ContextSwitch.Machine.InternalExit: `cleanup_thread` is any list of writes, confined in `PrivateContexts` to its own
  frames below the next thread's frame and to memory that is then nobody's.
- PrivateContexts.CreateRefines: the frame is zero or more words below the end of the block, as the two versions of the
  source differ in this; the store of a zero `rbp` is a write to the heap before it.
- PrivateContexts.OwnStepRefines: a thread that writes outside its block and the heap, or overflows its stack, is not
  covered.
- SemQueue.QueueIsCorrect: the order in which granted threads resume is left open rather than taken from the ready
  queue, which makes the result hold for more schedules than the program has.
- Runtime.MainResumesWhenAllAreBlocked: main creates threads and calls `ut_run`; it does not wait on events or
  semaphores itself.
