# memequeue: model and proofs

memequeue is a queue of byte messages in shared memory, used by any number of processes. A data area of `S` bytes is
mapped twice in a row, so that the virtual bytes `v` and `v + S` are the same cell. Between two offsets stand the
unread messages, each a length prefix of eight bytes and a payload. Senders work under the right lock, receivers under
the left one. Every side keeps a cached copy of the other side's offset. When a sender has filled the second mapping to
its end, in the middle of a message, it moves both offsets back by `S`. Empty receivers and blocked senders sleep on
the offset of the other side and are woken if a waiter counter is not zero.

The project models this queue in Dafny 4.11 and proves what it promises for every run: any number of threads, every
interleaving of single accesses to shared memory, any callbacks, and other processes attaching at any time.

## Layers

- `Bytes`, `Framing`, `RingMemory`, `WritePlan`: machine integers and length prefixes, encoded messages, the double
  mapping (`Cell`, `Load`, `Store`, and `Walk`, which reads messages off the memory the way a receiver does), and the
  decision `write` takes once it has a left offset.
- `Mutex`: the three-state futex lock as a step system for any number of threads, and its refinement to an atomic lock.
- `Protocol`: the queue as a step system. A state holds the data area, the header page and one program counter per
  thread. `Step` is a total function of a state and an event. An event is one access to shared memory by one thread
  or one of the two cache-clearing stores of an attaching process. The four stores of `fix_offsets` are four steps, a
  synchronising load is a load and a store, and a copy or a read of a payload happens in pieces of any size.
  `SendStep`, `WriteStep`, `FixStep`, `RecvStep`, `DeliverStep` and `WaitStep` follow `send`, the loop of `write`, its
  rebase branch, and the two branches of `recv` line by line; `Choice` is what a step leaves open. The locks are
  atomic locks.
- `FutexQueue`: queue and futex mutexes as one step system without the atomic locks: a thread that wants a side lock
  goes through the steps of the mutex and can sleep there. Its runs simulate runs of `Protocol`, so that what holds of
  those runs holds of these.
- `RingInvariant`, `SystemInvariant`, `Wakeups`: the inductive invariants. The ring is described by positions in two
  unbounded streams, the bytes ever committed and the bytes ever consumed, which a rebase does not touch.
- `CallTrace`: what the calls of a run amount to, read off the choices of the callbacks and the returns of their calls.
- `Theorems`, `WaitBound`, `Deadlock`, `DeadSleep`, `LapDeadlock`: what follows for every run.
- `Queue`: `MemeQueue` and `MemeWriter` as classes whose methods mutate one data area and its offsets, with the loops of
  the code. Other processes act between the accesses to the header and the data area, as far as the lock that is held
  lets them, and while the process waits. `Callbacks` has the send callbacks: trees of calls that branch on the answers.

## A promise that fails, and when it holds

A receiver that finds the queue empty drops its lock and then sleeps if the right offset is still the one it has seen
(`src/lib.rs:113-116`). This does not mean that nothing was sent: after one rebase and exactly `S` committed bytes the
offset is back at its old value. The receiver then sleeps on a full queue, and the next sender sleeps too.
`LapDeadlock.LapDeadlock` gives such a run, from the fresh queue, with one sender and one receiver, for every size of
the data area from 18 bytes on; afterwards no thread can move, unless a sleep ends by itself.

- `Deadlock.FooledExactly`: a receiver falls asleep on news exactly if a lap or more was committed between its look and
  its compare.
- `Deadlock.SoleReceiverSleep`: what the queue looks like then, with one receiver: exactly full.
- A receiver has been fooled (`Wakeups.Fooled`) if this has happened and there have been messages and a sleeping
  receiver ever since. `Deadlock.NoDeadlock`: while nobody has been fooled, no reachable state with a thread in a send
  and a thread in a receive is stuck, for any number of senders and receivers and whoever else is between calls;
  `FutexQueue.NoFutexDeadlock` says so down to the steps of the mutexes. `Deadlock.ShortWindowsNoDeadlock` says it in
  terms of the run: less than `S` bytes committed in every receiver's window is enough.
- `Deadlock.SoleSleeper`: a single receiver that slept on an empty queue is not forgotten, whatever happened before.
- `DeadSleep.AlwaysSleeper`, `DeadSleep.SleepsForEver` and `DeadSleep.WakeExactly` settle every sleep of a single
  receiver: the queue is empty, or a wake is pending, or the queue is full and nothing will ever be sent or received
  again, unless the sleep ends by itself or another thread begins to receive.
- `Deadlock.SleepingSender`: a sender cannot be fooled, because it keeps the right lock while it waits.

## Assumptions

- `16 <= S` and `2 * S <= u32::MAX`, as part of the type `RingMemory.Memory`. The code does not check the second one.
- Steps are sequentially consistent. Prefixes are little-endian and `usize` has 64 bits.
- The owner has zeroed the header and cleared the caches before anybody else attaches (`Protocol.Init`).
- At most `u32::MAX` threads, so that the waiter counters can count them.
- Callbacks do not call into the queue they were called from.

## Model

| member | source | states |
|---|---|---|
| Bytes.PrefixRoundTrip | src/lib.rs:94-98 | every length a u32 can hold is read back from the prefix that was stored for it |
| Bytes.LittleEndianDigit | src/lib.rs:137-143 | byte `i` of a stored number is its digit of weight `256^i` |
| RingMemory.CellIsRemainder | src/mmap.rs:88-111 | the double mapping: virtual position `v` is the cell `v mod S` |
| RingMemory.WalkEncoded | src/lib.rs:91-106 | walking the prefixes from where encoded messages start finds exactly these messages |
| Callbacks.OneCall | src/lib.rs:163-173 | a callback that makes one `write_all` succeeds exactly if payload and two prefixes fit into the data area, and then its whole buffer is the message |
| Callbacks.SendsFit | src/lib.rs:163-173 | no callback, whatever it does, gets a message accepted that does not leave two prefixes of the data area |
| Callbacks.WholeCall | src/lib.rs:199-210 | a call for whose buffer the window had room at the start of the send is answered by the whole buffer |
| WritePlan.PlanMeaning | src/lib.rs:190-224 | `write` rebases exactly at the end of the second mapping with the left offset a lap in, waits exactly when the window is full with the left offset in the first lap, and otherwise copies inside both bounds, something if there is anything, and short only at the bound |
| WritePlan.CachedPlanIsFresh | src/lib.rs:181-200 | a cached left offset that passes the test gives the branch and byte count of the true one, and never a wait |
| Mutex.AlwaysInv | src/control/shmem_futex.rs:110-123 | any number of threads: at most one holder, the word is non-zero exactly when there is one, and nobody sleeps without the word being 2, an unlocker about to wake, or a thread about to swap in 2 |
| Mutex.FreeLockIsReached | src/control/shmem_futex.rs:113-120 | a free lock that somebody wants is never stuck: some thread can move |
| Mutex.Uncontended | src/control/shmem_futex.rs:113-122 | an uncontended lock is one exchange that leaves the word 1, its drop one swap, and then everything is as before |
| Mutex.Handover | src/control/shmem_futex.rs:117-119 | a thread that finds the lock held marks the word with 2 and sleeps, and the owner's drop and wake hand the lock over |
| Mutex.RefinesAtomicLock | src/control/shmem_futex.rs:217-223 | every step of lock and guard drop is a step of an atomic lock by the same thread, which changes hands exactly when the thread enters or leaves its guard |
| FutexQueue.RefinesQueue | src/control/shmem_futex.rs:110-123 | in a system in which only the two lock words decide who gets in, every run goes through the rings, caches, counters and program counters of a run with atomic locks, and at every moment each atomic lock belongs to the thread inside the mutex and is taken exactly if the word is not zero |
| FutexQueue.AlwaysSimulates | src/control/shmem_futex.rs:217-223 | in every run the thread inside a mutex is the one in the guarded code, who is on its way in wants the lock, and queue and mutexes keep their invariants |
| FutexQueue.NoFutexDeadlock | src/lib.rs:112-116 | deadlock freedom with the mutexes: in a reachable state with a thread in a send and a thread in a receive some thread that is in a call, or on its way out of one, can move, unless a receiver has been fooled |
| RingInvariant.CopyKeeps | src/lib.rs:201-209 | a part of a copy leaves the unread messages, the staged bytes and the earlier part of the copy alone |
| RingInvariant.PrefixKeeps | src/lib.rs:137-143 | storing the length over the zeroed prefix leaves the unread messages alone and makes the staged bytes the encoding of the payload |
| RingInvariant.PublishKeeps | src/lib.rs:144-145 | committing the right offset appends exactly the staged payload to the unread messages, without wrap-around |
| RingInvariant.ReleaseKeeps | src/lib.rs:103-106 | committing the left offset removes exactly the oldest message |
| SystemInvariant.BranchSound | src/lib.rs:181-225 | whichever branch `write` takes from a cached or loaded left offset, the thread's next invariant holds: room for the copy, a due rebase, or a full window |
| SystemInvariant.OldestPart | src/lib.rs:94-101 | a callback that reads the slice in pieces reads the oldest payload |
| SystemInvariant.StepKeepsInv | src/control/shmem_futex.rs:177-214 | every event keeps the invariant of ring, locks, caches, waiter counters and all threads' local variables, also between the four stores of a rebase and between a load and the store of its value |
| SystemInvariant.AlwaysInv | src/control/shmem_futex.rs:84-108 | the invariant holds from the fresh header on, at every moment of every run, with caches cleared by attaching processes at any time |
| Wakeups.CompareExact | src/control/shmem_futex.rs:125-154 | the compare of a receiver succeeds exactly when the bytes committed since its look are as many laps as there were rebases |
| Wakeups.AlwaysWakeInv | src/control/shmem_futex.rs:156-175 | in every run a sleeping sender's left offset is still there or a wake is pending; and whenever a receiver sleeps each unread message has a receiver that is awake on its way to it, or a pending wake, unless a receiver has slept through a lap and there have been messages and a sleeping receiver ever since |
| Theorems.Fifo | src/lib.rs:75-152 | in every run what was received is a prefix of what was sent, and outside the middle of a rebase the rest is exactly what a reader finds in memory between the offsets |
| Theorems.OnlyCommitsCount | src/lib.rs:134-151 | in every run a message appears only by a commit, which publishes the whole staged payload, and disappears only by a release of what the callback was given |
| CallTrace.AlwaysTraced | src/lib.rs:121-227 | in every run each thread stands where the choices of its callback and the answers so far put it, and what it has staged is what was accepted |
| CallTrace.SentIsWritten | src/lib.rs:132-145 | send atomicity under all interleavings: every message ever sent is the concatenation, in order, of the prefixes that the calls of one callback accepted, each non-empty if its buffer is, and short only at the end of the second mapping or of a window that the queue had during the call |
| CallTrace.OnlyDoneSends | src/lib.rs:134-149 | a message is published only by a send whose callback has returned Ok, and it is what the calls of that callback accepted |
| CallTrace.FailedSend | src/lib.rs:136-151 | after a callback has returned Err its thread never gets to the prefix or the commit, and adds nothing to what was sent, until it sends again |
| CallTrace.RefusedExactly | src/lib.rs:163-173 | in every run a call of `write` is refused exactly if the payload would leave less than two prefixes of the data area |
| CallTrace.OnlyLookingTakes | src/lib.rs:103-106 | in every run a message is taken only by a call of `recv` that has none so far |
| CallTrace.ReturnsDone | src/lib.rs:111-151 | `recv` returns only with a message taken, `send` only with its message published or its callback failed |
| Theorems.StreamRefinement | src/lib.rs:211-217 | after `k` rebases the right offset plus `k * S` is the number of bytes ever committed and, outside the middle of a rebase, the left offset plus `k * S` that of the bytes ever consumed; an unread stream byte `n` is in cell `n mod S` |
| Theorems.Envelope | src/control/shmem_futex.rs:177-200 | in every run the right offset is at most `2 * S` and never the cleared-cache marker; outside the middle of a rebase the offsets are ordered and at most `S` apart; each cache is cleared or a lower bound except between the store that moves its offset back and the store that rewrites it |
| Theorems.WriterEnvelope | src/lib.rs:179-199 | while a writer is active its position is the exact sum, at most `S` beyond the left offset and at most `2 * S`, its total leaves a prefix free, and it has rebased at most once |
| Theorems.StagingNeverClobbers | src/lib.rs:201-209 | no cell that a copy writes, even under an old left offset, is a cell of an unread or staged byte |
| Theorems.SenderFastPath | src/lib.rs:181-188 | in every run a sender trusts its cache exactly if it serves, then goes where the true left offset would send it, and never into the wait branch |
| Theorems.ReceiverFastPath | src/lib.rs:82-91 | in every run a receiver trusts its cache exactly if it is beyond the left offset, and then there is a message at the true left offset |
| Theorems.CacheWrites | src/control/shmem_futex.rs:181-214 | in every run a cache changes only when a synchronising load stores what it loaded, a rebase the new offset, or an attaching process the cleared mark |
| Theorems.SyncAfterCache | src/lib.rs:180-188 | in every run a synchronising load begins only where the cache has just been tried and does not serve, each time round the loop |
| Theorems.WaitHolds | src/control/shmem_futex.rs:125-154 | a thread in `wait` whose offset is the expected one does not go on by itself, and two steps bring it to sleep |
| Theorems.WaitEnds | src/control/shmem_futex.rs:128-151 | a thread in `wait` whose offset is another one than expected goes back to the top of its loop, without sleeping |
| Theorems.DeliveredSlice | src/lib.rs:94-101 | the slice a callback gets is contiguous inside the two mappings and is the oldest unread payload, and what it has read is a prefix of it |
| Theorems.SliceStable | src/lib.rs:99-106 | nothing the others do while a callback runs moves the slice or changes its bytes |
| Theorems.RebaseOnce | src/lib.rs:211-217 | a rebase starts only at position `2 * S`, with the left offset at `S` or beyond, and in a send that has not rebased |
| Theorems.RebaseMeaning | src/control/shmem_futex.rs:202-214 | a rebase keeps the unread messages, the staged bytes behind them and the free space, and no second one is due |
| Theorems.BlockedSenderHasMessage | src/lib.rs:218-225 | a sender in the wait branch always has a committed message to wait for |
| Theorems.EmptyQueueNeverBlocks | src/lib.rs:163-227 | on an empty queue a write of accepted size copies, or rebases and then copies; it never waits |
| WaitBound.SendWaits | src/lib.rs:163-227 | over any run a send has to wait for no more left offsets, before its commit, than messages were unread at its start; on an empty queue it never waits |
| Deadlock.NoDeadlock | src/lib.rs:112-116 | in a reachable state with a thread in a send and a thread in a receive some thread that is in a call can move, unless a receiver has slept through a lap and there have been messages and a sleeping receiver ever since |
| Deadlock.StuckExactly | src/lib.rs:218-225 | in a reachable state no thread in a call can move exactly if each of them sleeps on an offset or queues at a taken right lock; nobody is ever stuck at the left lock |
| Deadlock.FooledHistory | src/lib.rs:112-116 | over a whole run, somebody has been fooled exactly if at some moment a receiver fell asleep with a lap or more committed since its look, and at every later moment there is a message and a sleeping receiver |
| Deadlock.ShortWindowsNoDeadlock | src/lib.rs:112-116 | a run in which less than `S` bytes are committed between any receiver's look and its compare is never stuck while a thread is in a send and another in a receive, whoever else is between calls |
| Deadlock.FooledExactly | src/lib.rs:113-116 | at every sleep of a receiver, in any run: something was committed since its look exactly if a lap or more was; otherwise the queue is empty |
| Deadlock.SoleReceiverSleep | src/lib.rs:87-116 | with one receiver: when it falls asleep the queue is empty or exactly full, and full exactly after one rebase and `S` committed bytes |
| Deadlock.SoleSleeper | src/lib.rs:144-148 | a single receiver that slept on an empty queue: for as long as it goes on sleeping the queue is empty or a sender is between commit and wake, whatever happened before |
| Deadlock.SleepingSender | src/lib.rs:218-225 | a sleeping sender has its left offset and an unread message before it, or a receiver is between commit and wake |
| Deadlock.WaiterCounters | src/control/shmem_futex.rs:136-172 | each waiter counter is the number of threads between increment and decrement, and whoever reads zero leaves nobody asleep |
| DeadSleep.AlwaysSleeper | src/lib.rs:112-116 | whenever a single receiver sleeps, in any run, the queue is empty, a sender is between commit and wake, or the queue is exactly full |
| DeadSleep.SleepsForEver | src/lib.rs:112-116 | a single receiver that sleeps while there are messages and no wake is pending: in every continuation in which its sleep does not end by itself and nobody else receives, it sleeps on, and nothing is sent or received any more |
| DeadSleep.WakeExactly | src/lib.rs:144-148 | a single receiver that sleeps while there are messages can be woken by some such continuation exactly if a sender is between commit and wake |
| LapDeadlock.LapDeadlock | src/lib.rs:113-116 | for every size from 18 bytes on there is a run of one sender and one receiver after which both sleep on a full queue and no thread can move |
| Queue.MemeQueue.constructor | src/control/shmem_futex.rs:84-108 | the fresh queue: empty, nothing sent, offsets zero, caches cleared |
| Queue.MemeQueue.Attach | src/control/shmem_futex.rs:99-106 | attaching clears both caches and keeps the queue |
| Queue.MemeQueue.SyncLoadLeft | src/control/shmem_futex.rs:181-187 | the true left offset at the load, which is now the cached one, with receivers at work between load and store |
| Queue.MemeQueue.SyncLoadRight | src/control/shmem_futex.rs:181-187 | the true right offset at the load, which is now the cached one, with senders at work between load and store |
| Queue.MemeQueue.FixOffsets | src/control/shmem_futex.rs:202-214 | offsets and caches get the new values, and the unread messages and the bytes staged behind them are still found |
| Queue.MemeQueue.CopyIn | src/lib.rs:206-208 | the copy over the double mapping, byte by byte, is the store of the buffer at its virtual position |
| Queue.MemeQueue.Slice | src/lib.rs:94-100 | the slice behind the prefix at the left offset is the oldest message |
| Queue.MemeQueue.CommitLeft | src/lib.rs:103-106 | the left offset moves behind the slice and the oldest message is gone |
| Queue.MemeQueue.Send | src/lib.rs:121-152 | whatever the callback does and however it reacts to the answers, success appends exactly the bytes that its calls accepted as one message to what was sent, also if it hides a refusal, and a call is answered short only where a window ended that the queue had during the send; failure appends nothing; others have only taken messages from the front; at most one wait in the whole send for each of them |
| Queue.MemeQueue.LookRight | src/lib.rs:81-91 | from cache or load, with senders at work in between: a message that is found is there, and none is found only if there was none at the start |
| Queue.MemeQueue.Deliver | src/lib.rs:91-106 | the oldest message is handed out, stays the same in the memory while senders act during the callback, and is then the one that is released |
| Queue.MemeQueue.Recv | src/lib.rs:75-119 | the message delivered is the next one in the order of sending among those not yet taken; one that is there at the call is delivered without a wait; a wait begins, and the call ends without a message, only when everything sent before that was taken by others |
| Queue.MemeWriter.constructor | src/lib.rs:127-131 | a writer at the right offset with nothing staged |
| Queue.MemeWriter.LookLeft | src/lib.rs:181-188 | the left offset in use gives the plan of the true one at the time of the look, and a wait only if it is the true one |
| Queue.MemeWriter.Stage | src/lib.rs:201-210 | the part that fits is staged and the unread messages stay |
| Queue.MemeWriter.Rebase | src/lib.rs:211-217 | both offsets, both caches and the writer's copy are set to the offsets less `S`, nothing else changes its meaning, once in a send |
| Queue.MemeWriter.Survey | src/lib.rs:179-199 | the head of the loop, with others at work before, during and after the look: the plan made from the left offset seen, which is one the queue had, is still sound when it is acted on |
| Queue.MemeWriter.Write | src/lib.rs:162-227 | refused exactly if too much, and then nothing changes; otherwise a prefix is staged, something if there is anything, short only where the window of a left offset ended that the queue had at the last look; at most one rebase; at most one wait, on a full window and until a message is taken; and the loop ends |
| Queue.MemeWriter.WriteFully | src/lib.rs:132-133 | `write_all`: the whole buffer is staged, or it is refused and nothing is |
| Queue.MemeWriter.RunCallback | src/lib.rs:134-134 | what is staged grows by the bytes that the calls accepted, of each buffer a prefix, short only at the end of a window, and each call depends on the answers before it |
| Queue.MemeWriter.StorePrefix | src/lib.rs:137-143 | the length replaces the zeroed prefix, and what is staged is the encoded message |
| Queue.MemeWriter.Publish | src/lib.rs:144-145 | the right offset moves behind the message, which is now the newest unread one and the last one sent |
| Queue.MemeWriter.Commit | src/lib.rs:136-145 | the message with its length is the newest unread one and the last one sent, with receivers at work before and between the two stores |

## Left out

- Weak memory orderings: every step is sequentially consistent; several orderings are marked as open in the source.
- `src/control/eventfd.rs`: declared broken by `README.md:6`, and its offsets and locks delegate to the futex control.
- `src/mmap.rs` and `src/handshake`: system calls; the double mapping and the zeroed header are taken as given.
- The loops of `lock` and `wait` as methods of a class: they end only by what other threads do, so they are steps of `Mutex` and `Protocol`, including spinning and sleeps that end by themselves.
- The debug assertion at `src/lib.rs:92`: release behaviour is modelled; an empty payload is a legal message here.
- Threads that die or panic inside a call, and the errors of futex calls, which the source ignores.
- Fairness: `Deadlock.NoDeadlock` says that some thread can move, not that each one will.
- Queue.MemeQueue.Send: a copy and the stores of a rebase are not interrupted by the others; in `Protocol` they are.
- Queue.MemeWriter.RunCallback: a callback is a finite tree of calls, one branch for each answer; one that calls `write` for ever has no tree.
- Queue.MemeQueue.Recv: the number of waits is the length of `arrivals`; `DeadSleep` says when a wait has no end.
- Statistics, clocks, debug output, `benchmarks` and `examples`.
