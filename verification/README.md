# A verified model of the shared-memory SPMC ring

The crate keeps one producer and up to eight readers in step through a memory-mapped file: a header
of counters and a masked array of slots. `try_push`, `try_pop`, `claim`, `commit`, `abort` and `drop`
are each several separate loads and stores, slot bytes are plain memory, and everything rests on
acquire/release. This project models those calls step by step and proves, for every capacity, every
reader count from one to eight, every record size, every number of consumer threads and every finite
interleaving, what the crate promises of them — and says exactly where a promise is wider than the
code.

`dafny verify dfyconfig.toml` checks the whole project.

## How it is put together

| file | content |
|---|---|
| `Common.dfy`, `Bits.dfy` | constants, errors, the minimum over cursors; masks |
| `Memory.dfy` | memory under release/acquire: `write_idx` and each cursor keep all values ever stored, each with the view its store released; a load returns any value the loading thread may still see; the loan gates are relaxed; slot words are plain memory whose accesses are logged and ordered by the views |
| `Protocol.dfy` | the step machine: a producer and any number of threads that pop, claim on a common handle, dereference each other's loans, commit, drop, abort, peek and measure |
| `Invariant.dfy`, `PopSteps.dfy`, `ClaimSteps.dfy`, `LoanSteps.dfy`, `AdvanceSteps.dfy` | one inductive invariant and, step by step, its preservation |
| `Runs.dfy`, `Theorems.dfy` | whole runs from a fresh ring, and what holds in all of them |
| `Handover.dfy`, `NoAborts.dfy` | when threads are ordered without the application's help, and when claims are |
| `Calls.dfy`, `Limits.dfy` | whole calls as building blocks, and with them how far the guarantees reach: exactly when the loan gate suffices and exactly when no run races |
| `Sessions.dfy`, `Outcomes.dfy` | which call each step belongs to, and what each call comes to in every run: its result, and its effect as an operation of the sequential pipeline |
| `Linearize.dfy` | every step refines an atomic broadcast log; refused pushes and empty pops are linearizable |
| `Pipeline.dfy` | the claim pipeline of one reader, call by call: exactly which aborts and drops are harmless |
| `Ring.dfy` | the classes: a mapping, handles and loans over arrays, masks and loops, refining the log and the same `Pipeline` |
| `Notify.dfy`, `Handshake.dfy` | the eventfd counter as an object, and the publish/signal/check/park protocol under interference |
| `Header.dfy` | the 256-byte header, create and open, slot addresses |

In `Memory` and `Protocol` a view records the oldest value of each index word and each loan gate a
thread may still load, and the set of slot accesses that happen before it. An acquire load may return
any value from the thread's view up to the newest, and joins the view stored with it. `loan_depth` is
relaxed: a load of it obeys the thread's view but joins nothing, and `fetch_add` and `fetch_sub` act on
the newest value. The relaxed load of `claim_base` may return any number whatever. A plain read returns
the stored word when all writes to it are ordered before the read and anything at all otherwise, so that
a read returns the published word is a consequence, not an assumption. `Post` and `Fetch` let the
application order its threads in any way it likes by means of its own.

### Contracts of the steps

Some are the crate's own rules, some go beyond the letter of its documentation:

* One producer (`src/ring.rs:113-121`).
* A pop for a reader begins only when no other call on that reader is under way, and no claim or
  resolution begins while a pop, `len` or `peek` is. The crate rules out `try_pop` racing `claim`
  (`src/loan.rs:64-74`); that it must not race `commit`, `drop` or `abort` either is read here into "one
  logical consumer per `reader_id`". Claims, dereferences and resolutions of different threads overlap
  freely.
* `HandedOver`: a pop begins on a thread that is ordered after everything done for its reader before,
  whoever did it, a claim on one ordered after the reader's last pop, and `len` or `peek` on one that sees
  the reader's cursor. The crate does not say so. One thread per reader meets it by itself
  (`Handover.OneThreadPerReaderMeetsContracts`); with several, the relaxed loan gate does not
  (`Limits.GateReach`).
* A loan is resolved by whoever owns it: `commit`, `abort` and `drop` take it exclusively, so the
  owner is ordered after the claim and after every dereference of it, and nobody dereferences it then.
* `Disciplined`: a loan is aborted only when no later loan of its reader is live. `Pipeline.AbortSafety`
  shows that this is what safety needs, up to one case stated there.
* `Ordered`, used for `Theorems.NoDataRace` alone: a claim that hands an index out again does so on a
  thread ordered after the earlier reads of it. It holds on its own when each reader is worked by one
  thread (`Handover.OneThreadPerReaderNoRace`) and when nothing is aborted
  (`NoAborts.NoAbortNoRace`); `Limits.RaceFreedom` says how far one gets without it.

### Where the code is narrower than its documentation

* `src/loan.rs:45-50` and `src/loan.rs:261-265` let any loan be aborted and say later loans keep their
  slots pinned. Aborting below a live loan rewinds `claim_base` under it, the indices are handed out
  twice, and committing the duplicates moves the cursor past the old loan. `Pipeline.AbortSafety` gives
  the condition, in both directions.
* `src/loan.rs:268-271` argues that `abort` may be relaxed because the shared cursor did not move. When
  one thread reads through a loan and aborts it and another thread claims and commits the same index,
  nothing orders that read before the producer's overwrite. `Limits.RaceFreedom`: in every configuration
  the code can have, runs within the contracts never race if and only if there is at most one consumer thread.
* `src/loan.rs:150-154` and `src/ring.rs:482-487` rely on the loan gate to keep `try_pop` off the cursor of
  a live loan, with relaxed operations. A pop on another thread that nothing orders after the claim may
  load the gate as it was and move the cursor past the loan. `Limits.GateReach`: with nothing arranged
  between threads, live loans stay pinned if and only if there is at most one consumer thread.
* `src/loan.rs:42-44` and `src/loan.rs:314-316` say a drop never corrupts the pipeline. A drop away from
  the cursor keeps every loan pinned but leaves `claim_base` past an unconsumed index, so a later claim
  passes over it: `Pipeline.ContiguousKeeps` and, exactly when, `Pipeline.DropSkips`.
* `src/notify.rs:22-25` lets any number of consumers share one eventfd, each read taking one unit. The
  descriptor is not a semaphore (`src/notify.rs:109`), one read takes all of them, and with two
  consumers a wakeup is lost: `Handshake.NoLostWakeup` holds for at most one consumer and no more.
* `src/header.rs:128-131` calls 2^k - 1 valid for k >= 0, but a zero mask is refused. A ring of
  capacity one is created and cannot be opened: `Header.CreateThenOpen`.

## Model

| member | source | states |
|---|---|---|
| Memory.ReadExact | src/ring.rs:25-32 | a reader that acquired an index its cursor has not passed is ordered after every write to that slot word, and the slot holds that record |
| Memory.WriteOrdered | src/ring.rs:34-43 | with every cursor it loaded less than a capacity behind, the producer's slot write is ordered after all earlier writes and reads of the slot |
| Memory.WriteKeeps | src/ring.rs:458-463 | writing one word of the next record leaves the last records in the other slots and every view intact |
| Memory.PublishKeeps | src/ring.rs:465-466 | the release store of `write_idx` publishes exactly the record filled in, to whoever acquires it |
| Memory.AdvanceKeeps | src/ring.rs:509-511 | the release store of a cursor, by a thread that knows the reads of the record it releases, hands those reads to the producer |
| Invariant.InitHolds | src/ring.rs:322-332 | a fresh ring satisfies the invariant, whatever its capacity, readers and threads |
| Invariant.PushLoadKeeps | src/header.rs:166-171 | loading one more cursor, however stale, in the minimum scan keeps the invariant |
| Invariant.PushDecideKeeps | src/ring.rs:453-456 | the scan result, however stale, is at most `write_idx` and at most a capacity below it, and going ahead is safe |
| Invariant.PushWriteKeeps | src/ring.rs:463 | a word written into the claimed slot touches no record a reader may still read |
| Invariant.PushStoreKeeps | src/ring.rs:466 | publishing keeps the invariant for every thread, loan and reader |
| PopSteps.GateSeen | src/ring.rs:485-487 | whatever the relaxed load of the gate may return to a popping thread is the number of live loans |
| PopSteps.PopCheckGateKeeps | src/ring.rs:485-487 | the gate load keeps the invariant, so past it the reader has no live loan |
| PopSteps.PopSeesCursor | src/ring.rs:491-497 | the popping thread loads its own cursor exactly, and never one past the `write_idx` it loaded |
| PopSteps.PopReadsPublished | src/ring.rs:500-507 | each word a pop reads is the published word and races with no write |
| AdvanceSteps.PopStoreExact | src/ring.rs:507-512 | at its store a pop has read exactly `stream[cursor]`, and the cursor is still the one it loaded |
| AdvanceSteps.PopStoreKeeps | src/ring.rs:511 | the pop's cursor store keeps the invariant, loans and other readers included |
| ClaimSteps.ClaimLostKeeps | src/loan.rs:190-192 | a lost or spuriously failed compare-and-swap keeps the invariant, the gate count with it |
| ClaimSteps.ClaimWins | src/loan.rs:155-193 | a winning compare-and-swap yields an index at or past the newest cursor, acquired by the claimer, above every live loan |
| ClaimSteps.ClaimWonKeeps | src/loan.rs:170-189 | issuing the loan keeps the invariant, so live indices stay distinct and pinned |
| ClaimSteps.ClaimFailKeeps | src/loan.rs:195-198 | a failed claim gives back exactly the gate unit it took |
| LoanSteps.DerefReadsPublished | src/loan.rs:285-297 | a dereference at any moment of a loan's life reads the published word and races with no write |
| LoanSteps.ResolveRejectKeeps | src/loan.rs:243-248 | a rejected commit keeps the invariant, the pins of all loans with it |
| LoanSteps.ResolveDropKeeps | src/loan.rs:314-317 | a drop off the cursor ends its loan without un-pinning another |
| LoanSteps.AbortKeeps | src/loan.rs:266-275 | aborting the topmost loan rewinds the pipeline to its index and keeps the invariant |
| AdvanceSteps.CommitExact | src/loan.rs:242-253 | between the check and the store of a commit the cursor has not moved and the slot holds the loaned record |
| AdvanceSteps.CommitKeeps | src/loan.rs:249-254 | the commit's cursor store keeps the invariant |
| Runs.StepKeeps | src/loom_ring.rs:240-251 | every step any thread can take keeps the invariant |
| Runs.ReachableInv | src/loom_ring.rs:240-304 | every reachable state satisfies the invariant, with no bound on capacity, readers, threads or messages |
| Theorems.ConsumedIsStream | src/ring.rs:472-476 | what a reader has consumed, by pops and resolved loans on any threads, is the stream up to its cursor: exactly once and in order |
| Theorems.PopReturnsNext | src/ring.rs:480-513 | a completed pop returns `stream[r]` with `r` the number of records consumed before, and stores `r + 1` |
| Theorems.CommitMovesCursorByOne | src/loan.rs:235-256 | load, compare, store moves the cursor by exactly one from its newest value |
| Theorems.LoanPinned | src/loan.rs:54-62 | a live loan lies between the cursor and `write_idx`, its slot holds its record, and no other live loan of the reader has its index |
| Theorems.DerefReturnsRecord | src/loan.rs:288-296 | a dereference yields `stream[i]` whatever the producer and other readers do |
| Theorems.ClaimImmuneToAba | src/loan.rs:155-193 | although its three loads are of different instants and aborts lower `claim_base`, a winning claim is of an index nobody holds and no cursor has passed |
| Theorems.AtMostCapacityLoans | src/loan.rs:140-142 | one reader never has more than `capacity` live loans |
| Theorems.NoDataRace | src/ring.rs:34-65 | no slot access of a run with ordered claims races: reads see ordered writes, writes come after all earlier reads of the slot |
| Limits.RaceFreedom | src/loan.rs:120-126 | for every configuration, runs of `n` consumer threads within the contracts never race if and only if `n` is at most one |
| Limits.AbortedReadsCanRace | src/loan.rs:268-271 | with two or more threads, in every configuration, a run exists in which the producer overwrites a slot unordered with a read of an aborted loan |
| Theorems.ReadsNeverRace | src/loan.rs:61-62 | reads of pops and loans never race with a write, ordered claims or not |
| Theorems.Backpressure | src/ring.rs:447-456 | every cursor is at most `write_idx` and at most `capacity` behind; a finished scan, stale or not, is a lower bound of every cursor and at most a capacity below `write_idx`, so the producer's lag lies in 0..capacity; a refused push saw exactly `capacity` |
| Theorems.OwnerLooks | src/ring.rs:546-555 | `len` by the owning reader, while records are published between its two loads, is the distance from its newest cursor, in 0..capacity and not wrapped; `peek` points at the record at the cursor |
| Theorems.PeekWindow | src/ring.rs:515-525 | until the reader's cursor passes it, the peeked record stays in its slot and reading it races with no write |
| Theorems.ResolutionAtCursor | src/loan.rs:304-317 | a commit or drop whose owner has seen the newest cursor consumes exactly when its loan is there |
| Theorems.GateIsExact | src/loan.rs:195-198 | `loan_depth` equals live loans plus claims in flight plus resolutions not yet finished and never underflows; any value a pop's relaxed load may return turns it away exactly when a loan is live |
| Limits.GateReach | src/ring.rs:482-487 | with nothing arranged between threads, no run moves a cursor past a live loan if and only if there is at most one consumer thread |
| Limits.StaleGateUnpins | src/loan.rs:150-154 | with two or more threads, in every configuration, a run exists in which a stale load of the gate lets a pop pass a live loan |
| Handover.OneThreadPerReaderMeetsContracts | src/loan.rs:66-74 | when one thread works each reader, every run meets the ordering contracts by itself and its claims are ordered |
| Handover.OneThreadPerReaderResolves | src/loan.rs:242-247 | then a commit or drop consumes exactly the loan at the newest cursor |
| Handover.OneThreadPerReaderNoRace | src/loan.rs:66-74 | with one thread claiming and reading for each reader no run has a data race, aborts included |
| NoAborts.NoAbortNoRace | src/loan.rs:120-126 | with any number of threads on a handle, a run that aborts nothing has no data race |
| Linearize.PushRefines | src/ring.rs:443-470 | the publishing store is an atomic push of the record in hand, with room for it at that instant |
| Linearize.PopRefines | src/ring.rs:480-513 | the cursor store of a pop is an atomic pop returning the popped record |
| Linearize.CommitRefines | src/loan.rs:235-256 | the cursor store of a commit is an atomic pop of the loaned record |
| Linearize.StepRefines | src/ring.rs:10-23 | a step from a state of the invariant is an atomic operation on the broadcast log, with the record it really moves, or leaves the log alone |
| Linearize.RunRefines | src/ring.rs:472-476 | a fresh ring is the empty log and every run of the steps is a run of atomic pushes and pops of it |
| Outcomes.PushPublishes | src/ring.rs:443-466 | in every run a push that completes appends to the stream the record its call was given, and the slot holds it |
| Outcomes.ClaimOutcome | src/loan.rs:170-193 | in every run a claim whose compare-and-swap wins is one atomic claim of the sequential pipeline, returning the loan of its head; one that loses or fails spuriously changes nothing and starts over |
| Outcomes.EmptyClaimHadNothing | src/loan.rs:158-169 | a claim that loads newest values comes back empty only when all records published at one instant of the call were claimed or consumed at a later one |
| Outcomes.PopTurnedAway | src/ring.rs:485-487 | a pop is turned away exactly when a loan of its reader is live, and changes nothing then |
| Outcomes.PopFindsRecord | src/ring.rs:491-497 | past the gate a pop is empty exactly when the `write_idx` it loaded is its reader's newest cursor, and changes nothing then |
| Outcomes.PopTakes | src/ring.rs:499-512 | a pop that completes is one atomic pop of its reader's pipeline: that reader consumes `stream[cursor]`, no loan and no other reader is touched |
| Outcomes.ResolutionDecides | src/loan.rs:242-248 | at the cursor it loaded, a commit or drop goes on to consume the loan it was given; off it a rejected commit leaves that loan exactly as it was when the call began, and everything else alone, and a drop only lets go |
| Outcomes.ResolutionConsumes | src/loan.rs:249-254 | the store of a commit or drop is one atomic commit of the pipeline: `stream[index]` of the loan given is consumed, that loan ends, nothing else does |
| Outcomes.AbortRewinds | src/loan.rs:266-275 | an abort is one atomic abort of the pipeline: the loan given ends, `claim_base` rewinds to it, earlier loans, cursors and records stay |
| Outcomes.LoanEnds | src/loan.rs:226-234 | a loan ends only by its own abort, by the store of its own commit or drop, or by its own drop finding it ahead of the cursor |
| Outcomes.OthersLeavePipes | src/ring.rs:78-87 | no other step of any call touches a claim pipeline or consumes anything |
| Outcomes.LookMeasures | src/ring.rs:546-555 | `len` and `peek` measure from the newest cursor to the `write_idx` loaded when the call began, the newest one then if the load was fresh, and change nothing |
| Outcomes.AccessesLogged | src/ring.rs:10-23 | each slot access is logged as made: words of the next record by a push, of the record at the cursor by a pop, of its own record through a loan |
| Sessions.CallBegan | src/loan.rs:147-200 | every step of a thread belongs to the call it began last and works for the reader or loan that call was given |
| Linearize.RefusedPushWasFull | src/ring.rs:447-456 | a push refused on newest cursors has an instant inside its one-by-one scan at which the slowest lag was exactly the capacity |
| Linearize.EmptyPopWasCaughtUp | src/ring.rs:491-497 | a pop empty on the newest `write_idx` has an instant inside the call at which its reader had consumed everything published |
| Pipeline.HeldIsSafe | src/loan.rs:52-62 | with the live loans distinct and pinned, or a given-back index holding the cursor below them, every sequence of calls that aborts topmost loans only keeps all of them pinned |
| Pipeline.AbortUnpins | src/loan.rs:266-275 | aborting below a later loan, with no hole under it, has a continuation that leaves a live loan behind the cursor |
| Pipeline.AbortSafety | src/loan.rs:258-275 | aborting loan `i` leaves every loan pinned for good if and only if no later loan is live or a dropped index below `i` holds the cursor |
| Pipeline.ContiguousKeeps | src/loan.rs:299-319 | the live loans stay exactly the indices from the cursor to `claim_base` if and only if drops are at the cursor and aborts at the tail |
| Pipeline.ContiguousProgress | src/loan.rs:161-170 | then the oldest loan can always commit, and with none live a claim takes exactly the cursor index |
| Pipeline.DropSkips | src/loan.rs:314-317 | after a drop ahead of the cursor and any resolution of the rest, the next claim passes over the dropped index, which nobody consumed, if and only if no loan below it was aborted |
| Common.Slowest | src/header.rs:166-171 | the fold is at most every cursor and is one of them or `u64::MAX` |
| Ring.Mapping.constructor | src/ring.rs:303-322 | a created mapping is valid and empty |
| Ring.Mapping.SlotOf | src/ring.rs:422-433 | the masked slot is in range and is the index modulo the capacity |
| Ring.Mapping.SlowestReadIdx | src/header.rs:166-171 | the loop computes the minimum over the participating cursors, at most a capacity behind `write_idx` |
| Ring.Mapping.Advance | src/header.rs:159-161 | storing the next cursor appends exactly the record in its slot, which is `stream[index]`, to what the reader consumed |
| Ring.SpmcRingBuffer.constructor | src/ring.rs:398-408 | a new handle is valid on any valid mapping, with empty pipelines |
| Ring.SpmcRingBuffer.Create | src/ring.rs:270-333 | creation succeeds exactly for power-of-two capacities |
| Ring.SpmcRingBuffer.TryPush | src/ring.rs:443-470 | succeeds exactly when the slowest reader is less than a capacity behind; then the stream grows by the value and the last `capacity` slots agree with it, else nothing changes |
| Ring.SpmcRingBuffer.TryPop | src/ring.rs:480-513 | rejected exactly while a loan is live, empty exactly when caught up, else returns `stream[cursor]` and appends it to what that reader consumed; other readers are untouched |
| Ring.SpmcRingBuffer.Peek | src/ring.rs:526-538 | yields `stream[cursor]` without consuming, or nothing exactly when caught up |
| Ring.SpmcRingBuffer.Len | src/ring.rs:546-555 | cursor plus length is the length of the stream, so nothing wraps |
| Ring.SpmcRingBuffer.SlowestLag | src/ring.rs:569-574 | the slowest cursor plus the lag is the length of the stream, and the lag is at most the capacity |
| Ring.SpmcRingBuffer.Issue | src/loan.rs:170-189 | the new loan is live at the pipeline head and the gate counts it |
| Ring.SpmcRingBuffer.RaiseGate | src/loan.rs:150-154 | raising the gate leaves it exactly one above the live loans of that reader and every other gate exact |
| Ring.SpmcRingBuffer.LowerGate | src/loan.rs:195-198 | lowering it again makes every gate exact |
| Ring.SpmcRingBuffer.ClaimLoop | src/loan.rs:155-194 | the loop takes the pipeline head through any number of spurious failures, or leaves pipeline and gate alone when nothing is published there |
| Ring.SpmcRingBuffer.Claim | src/loan.rs:147-200 | refines the pipeline claim; a failed claim leaves gate and pipeline as they were |
| Ring.Loan.Deref | src/loan.rs:285-297 | a loan yields `stream[index]` while the cursor has not passed it, and later for as long as the slot has not been reused |
| Ring.PinnedDeref | src/loan.rs:52-62 | while the pipeline is pinned every live loan dereferences to its record |
| Ring.Loan.Resolve | src/loan.rs:279-282 | the loan leaves the live set and the gate drops by exactly one |
| Ring.Loan.Commit | src/loan.rs:235-256 | consumes `stream[index]` exactly at the cursor, is refused elsewhere with nothing changed, and is a no-op when already resolved |
| Ring.Loan.Abort | src/loan.rs:266-275 | refines the pipeline abort: nothing consumed, `claim_base` the lesser of itself and the index |
| Ring.Loan.Drop | src/loan.rs:299-319 | consumes the record exactly when it is at the cursor and lets go of the loan in any case |
| Ring.OtherHandleKeeps | src/ring.rs:119-121 | whatever another handle does to the mapping, this handle stays valid |
| Notify.EventNotify.constructor | src/notify.rs:103-118 | the counter starts at zero |
| Notify.EventNotify.Signal | src/notify.rs:120-145 | adds one unit, or is dropped on a full counter; some unit is pending afterwards |
| Notify.EventNotify.TryWait | src/notify.rs:196-219 | hands out all pending units at once, or nothing when there are none |
| Notify.EventNotify.WaitTimeout | src/notify.rs:153-194 | pending units are returned at once; else the first poll that brings anything or reaches its deadline decides, for its arrivals or for a timeout; with no such poll the wait goes on blocking |
| Notify.First | src/notify.rs:181-192 | everything before that poll was an interrupt that brought nothing |
| Notify.PushNotified | src/notify.rs:249-256 | one signal exactly per published record |
| Handshake.WakeupsConserved | src/notify.rs:265-278 | signals equal units drained, pending and saturated; drains follow publishes; fruitless wakeups are bounded by signals |
| Handshake.WokenSeesSignalled | src/loom_ring.rs:416-426 | a consumer woken by a drain sees every record signalled so far, with loads that may be stale |
| Handshake.DrainTakesAll | src/notify.rs:196-219 | a drain hands out every signal so far that did not meet a full counter and leaves none; the consumer sleeps exactly when there was none |
| Handshake.LookTakesNext | src/notify.rs:271-273 | a look takes exactly the next record when the loaded `write_idx` shows one and goes on to wait exactly when it shows none |
| Handshake.SignalWakes | src/notify.rs:184-192 | after a signal every sleeping consumer can be woken, and whoever wakes drains next |
| Handshake.OneConsumerNeverLost | src/notify.rs:27-35 | with one consumer nobody sleeps on a zero counter with a signalled record of its own unread |
| Handshake.SharedCounterLoses | src/notify.rs:22-25 | with two or more consumers on one eventfd a wakeup can be lost |
| Handshake.NoLostWakeup | src/notify.rs:22-35 | no wakeup is ever lost if and only if at most one consumer waits on the eventfd |
| Header.BytesRoundTrip | src/header.rs:54-68 | a field written least significant byte first and read back is the same number |
| Header.Layout | src/header.rs:70-79 | each field of the written header is at its fixed offset |
| Header.EncodeDecode | src/header.rs:54-79 | writing any header and reading it back through the offsets loses nothing |
| Header.ValidateIff | src/header.rs:112-141 | `validate` accepts exactly the headers of the right magic and version whose mask is 2^k - 1 with k from 1 to 63, and names the first thing wrong with the others |
| Header.CreateThenOpen | src/ring.rs:270-409 | a created file holds its capacity and number of readers, with every counter and cursor zero; it opens exactly when it has two or more slots and is not truncated, be it within the header, and the error says which |
| Header.Reopen | src/ring.rs:350-409 | a file in use opens with its capacity and all its counters, or is refused for the first thing wrong with it |
| Header.SlotInFile | src/ring.rs:425-428 | every slot lies behind the header and inside the file |
| Header.SlotAligned | src/ring.rs:428-431 | every slot starts on the record's alignment |
| Header.SlotsDisjoint | src/ring.rs:422-433 | the slots of two indices less than a capacity apart share no byte |
| Bits.MaskIsModulo | src/ring.rs:423 | masking with `capacity - 1` is reduction modulo a power-of-two capacity |
| Bits.MaskSeparates | src/ring.rs:422-424 | indices less than a capacity apart have different slots |

## Left out

- Theorems.NoDataRace: asks that claims are ordered, which no caller checks at run time. What a caller can check is in `Handover.OneThreadPerReaderNoRace` and `NoAborts.NoAbortNoRace`, and `Limits.RaceFreedom` gives the exact number of threads.
- Limits.RaceFreedom: asks for a capacity below 2^64 - 1; a `usize` power of two is at most 2^63. It covers capacity one too, though a file with one slot cannot be opened a second time.
- Linearize.RefusedPushWasFull: asks that the call's own cursor loads return the newest values. With stale loads a refused push has seen a lag of exactly `capacity` (`Theorems.Backpressure`), but there need be no one instant with it.
- Linearize.EmptyPopWasCaughtUp: asks that the call's own load of `write_idx` returns the newest value; a stale one may miss records already published.
- Ring.SpmcRingBuffer.TryPush: asks that `write_idx` is below `u64::MAX`; the protocol bounds it likewise, and wrap-around after 2^64 records is not modelled.
- Header.CreateThenOpen: file lengths do not overflow; the code adds and multiplies `usize`.
- The memory model has no load buffering: a value is loaded only after it is stored, so program order and reads-from have no cycle.
- Two producers, other handles moving a cursor under a live loan, and `try_pop` racing `claim` on one reader are outside the crate's contract.
- Reads through a peeked pointer are not logged, so `Theorems.NoDataRace` does not order them before the next overwrite; `len` and `slowest_lag` by a third party can observe a wrapped difference.
- `Protocol` addresses slots by `index % capacity` for any capacity; `Bits.MaskIsModulo` ties that to the mask.
- `Pipeline` lets records be published at any time; backpressure is the matter of `Theorems.Backpressure` and `Ring.SpmcRingBuffer.TryPush`.
- `total_written` appears in `Ring` alone; it is a diagnostic with no reader in the protocol.
- The blocking loops `pop_blocking` and `pop_blocking_timeout` are a consumer of `Handshake`, not methods: they may block for ever and the latter needs a clock. No liveness is stated.
- `mmap`, opening and creating files, paths and metadata: only the file's length and header bytes are modelled.
- The `eventfd`, `read`, `write` and `poll` calls, their other error returns, and descriptor ownership.
- Pointers, lifetimes, `Send`/`Sync` and the zerocopy bounds: a record is an opaque sequence of words.
- `src/status.rs`: a copy and two equality tests.
- `Debug`, error text, benchmarks and fuzzing.
