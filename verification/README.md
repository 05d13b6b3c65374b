# BITS, modelled and verified

BITS is a job broker. Several replicas accept jobs, queue them behind dispatchers, hand them to
local or remote workers, keep durable records in a shared store and let any replica recover a job
whose owner is gone. This project models the protocols and the exact arithmetic at its core and
proves what they keep in every run.

Concurrent protocols are state machines over values. A step is one atomic or lock-held action of
one actor, a step that is not enabled leaves the state alone, and a run is any list of steps, so a
theorem about every list is a theorem about every interleaving. Code that works by updating
variables, vectors or maps is written as methods with loops, or as a class, and is proved against
those machines or against an independent definition.

| modules | what they model |
|---|---|
| `UserSlots`, `SlotKeys`, `Admission`, `AdmissionBounds`, `AdmissionCauses`, `LazyTightness`, `ReclaimOvershoot`, `UserLimiter` | per-user admission across replicas, strict and lazy |
| `Dispatch` | the pending map: executor, abandonment and close racing for one entry |
| `Claims`, `Ownership`, `BrokerSlots`, `MemoryStore` | durable ownership, compare-and-set loops against the atomic store, broker slots |
| `Lease` | leases with grace, the heartbeat, when a poll may claim, claim retries |
| `Lifecycle`, `Durable` | submit, run, persist, poll and sweep inside one broker |
| `WorkerLog`, `AgeOrder`, `AgeQueue`, `CostQueue` | the two priority queues and their workers |
| `Radix`, `RequestId` | request ids: base-37 tags, packing, base 32 |
| `Routing` | switch validation and dispatch |
| `RemotePool` | claims of remote workers, heartbeats, eviction and drain |
| `Wrappers`, `Counting`, `Sorting` | shared definitions |

Results that differ from what one might expect, each with a witness:

- `Claims.NatsClaim`: the three-attempt loop can answer what the atomic store never would, exactly
  when it is overtaken three times and the expected owner still holds the record. Over whole runs
  this takes four puts of the record by the broker named in its id (`Ownership.AttemptsWithinPuts`).
- `LazyTightness.LazyBoundIsTight`: with remembered counts lazy admission can exceed `max` overall; any number of
  brokers can together reach brokers times `max`, so the bound of `AdmissionBounds.LazyBound` is exact.
- `ReclaimOvershoot.LapsedLeaseDoublesUse`: a broker whose lease lapses while its jobs run loses their reservations to
  the next sweep, and use can reach twice `max` in either mode. The bounds hold while every reclaim spares the brokers
  of the key's undecided and admitted jobs (`AdmissionBounds.Spares`), which is exactly when no needed reservation is
  lost (`AdmissionBounds.ReclaimKeepsNeeded`).
- `UserLimiter.UserKeyUnique`: the accounting key identifies a user exactly when neither the realm
  nor the name contains the separator.
- `Lifecycle.LandedRecordStays`: a durable write that is answered with an error after it landed leaves a record that
  neither poll nor sweep deletes; that is exactly when the flag and the store disagree (`Lifecycle.WrittenOnce`).
- `Lifecycle.OnlyStaleLoses`: removal from the jobs map goes by id, so a poller of a swept run can
  remove a newer run with the same id; this is the only way a wanted result becomes unreachable.
- `Durable.ReuseErasesRecord`: deletions go by id, so a deletion asked for by an old run takes the record of a newer run
  that reused the id; with distinct ids a record lives exactly from its write to its own deletion.
- `Lease.SlackIsExact`: the store lag and lookup time a renewing broker can bear add up to exactly
  ttl + grace - tick - retry wait, which is the grace itself at the least configurable lifetime.
- `BrokerSlots.UniqueUnlessRegranted`: broker slots are unique exactly in the runs in which no grant follows a purge
  that follows a grant; a purge before the first grant, or after the last, does no harm.

## Model

| member | source | states |
|---|---|---|
| `UserSlots.Slots.Reserve` | bits/src/db/memory.rs:175-202 | a held reservation keeps its ordinal and nothing changes; a new one takes the next ordinal; no other key is touched |
| `UserSlots.Slots.Release` | bits/src/db/memory.rs:204-219 | exactly this job's reservation goes, for this key only, and no empty table stays behind |
| `UserSlots.ReserveIdempotent` | bits/src/db/nats.rs:465-503 | reserving again, even for another owner, changes nothing |
| `UserSlots.ReleaseUndoesReserve` | bits/src/db/memory.rs:204-219 | release after a fresh reserve restores every key's reservations; only the ordinal stays used |
| `UserSlots.ReclaimEntries` | bits/src/db/memory.rs:233-256 | for every key exactly the reservations of owners with a live lease survive, ordinals unchanged |
| `SlotKeys.WriteHex` | bits/src/db/nats.rs:443-450 | the loop writes two hex digits per byte |
| `SlotKeys.KeysNeverClash` | bits/src/db/nats.rs:452-459 | two reservations share a store key if and only if scope, user and job are the same |
| `SlotKeys.PrefixSelects` | bits/src/db/nats.rs:461-463 | the listing prefix of (scope, user) matches a key if and only if the key belongs to that scope and user |
| `Admission.StepKeeps` | bits/src/dispatcher/mod.rs:258-428 | every step of admission, guard drop, store release and reclaim keeps ownership of reservations, ordinals in order of creation, ranks of admitted jobs, and local count equal to live guards for every (broker, key) |
| `Admission.RunKeeps` | bits/src/dispatcher/mod.rs:258-428 | the same over every run |
| `AdmissionBounds.StrictSafety` | bits/src/dispatcher/mod.rs:278-333 | in every interleaving, the strictly admitted jobs of one key still in the store number at most the ceiling used by the one with the highest ordinal |
| `AdmissionBounds.StrictSafetyUniform` | bits/src/dispatcher/mod.rs:278-333 | hence never more than the largest ceiling in use for the key |
| `AdmissionBounds.RankDecides` | bits/src/dispatcher/mod.rs:317-333 | while no admitted job finishes, the rank in the listing is below the ceiling if and only if fewer than the ceiling reserved earlier, even if refused jobs have released meanwhile |
| `AdmissionBounds.StrictExactness` | bits/src/dispatcher/mod.rs:317-333 | while the store does not fail for the key, reclaims spare the brokers of its undecided and admitted jobs, and no admitted job finishes, n competing reservations admit exactly the first min(n, max) by ordinal, whatever the order of the listings |
| `AdmissionBounds.LazyBound` | bits/src/dispatcher/mod.rs:334-388 | lazy admission never holds more than max live guards at one broker, nor more than brokers times max in all |
| `AdmissionBounds.RunCounted` | bits/src/dispatcher/mod.rs:354-386 | over every run, the jobs let in by a fresh listing and still in the store never exceed the ceiling |
| `AdmissionBounds.FreshLazyUse` | bits/src/dispatcher/mod.rs:354-386 | while the store does not fail for the key, its lazy decisions list afresh and reclaims spare the brokers of its undecided and admitted jobs, overall use across all brokers never exceeds max; other keys may fail and remember as they like |
| `AdmissionBounds.FreshStrictUse` | bits/src/dispatcher/mod.rs:278-333 | under the same condition overall use under strict admission never exceeds max |
| `AdmissionBounds.ReclaimKeepsNeeded` | bits/src/runtime/maintenance.rs:153-182 | a reclaim leaves every undecided and admitted job of a key its reservation if and only if it spares their brokers |
| `AdmissionCauses.DecisionsHaveReasons` | bits/src/dispatcher/mod.rs:258-402 | over every run every verdict was entitled: ranked in with fewer than the ceiling ahead, counted or remembered within it, let in by a failing store, or refused with the ceiling reached at the gate, in the rank, the listing or the remembered count |
| `AdmissionCauses.GateDecides` | bits/src/dispatcher/mod.rs:224-232 | the local gate refuses a lazy job if and only if that many guards are live at its broker |
| `AdmissionCauses.ListingDecides` | bits/src/dispatcher/mod.rs:317-388 | a rank, a listing or a remembered count decides a job whose turn it is, in or out exactly as the count says |
| `AdmissionCauses.FailuresLetIn` | bits/src/dispatcher/mod.rs:285-316 | a store that fails at the reservation or at the listing lets the job in with its guard; the reservation may have landed all the same |
| `AdmissionCauses.RememberedIsLastListed` | bits/src/dispatcher/mod.rs:350-370 | a remembered count is what that broker's last listing of the key counted |
| `AdmissionCauses.ZeroIsDenied` | bits/src/dispatcher/mod.rs:267-269 | a ceiling of 0 denies at once |
| `ReclaimOvershoot.LapsedLeaseDoublesUse` | bits/src/runtime/maintenance.rs:153-182 | for every ceiling, strict or lazy: when one reclaim drops a broker whose jobs still run, another broker fills the ceiling again and use is twice the ceiling, with no failure and every decision fresh |
| `LazyTightness.LazyBoundIsTight` | bits/src/dispatcher/mod.rs:350-388 | for every ceiling in lazy mode and any number of brokers, a run without failures in which remembered counts let overall use reach brokers times the ceiling |
| `UserLimiter.Resolve` | bits/src/dispatcher/mod.rs:200-220 | the ceiling is the greatest of the applicable candidates, none if there is none; no realm or no name gives no limit |
| `UserLimiter.UserKeyUnique` | bits/src/dispatcher/mod.rs:203 | the key determines realm and user if and only if neither contains the separator |
| `UserLimiter.RankOf` | bits/src/dispatcher/mod.rs:321-327 | sort and search give the number of listed reservations before one's own, 0 when it is missing |
| `UserLimiter.RankIsProtocolRank` | bits/src/dispatcher/mod.rs:321-327 | whatever order the store lists in, that number is the rank used by the protocol |
| `UserLimiter.Counters.TryAdmitLocal` | bits/src/dispatcher/mod.rs:224-232 | admits if and only if the count is below the cap and then adds exactly one |
| `UserLimiter.Counters.IncrLocal` | bits/src/dispatcher/mod.rs:236-238 | adds one without a check |
| `UserLimiter.Counters.ReleaseLocal` | bits/src/dispatcher/mod.rs:241-246 | takes one off this key, never below zero, and forgets it at zero |
| `Dispatch.StepKeeps` | bits/src/dispatcher/mod.rs:611-799 | every step keeps who holds each entry, where its permit is and what the gauge counts |
| `Dispatch.RunKeeps` | bits/src/dispatcher/mod.rs:611-799 | the same over every run |
| `Dispatch.RemovalDecides` | bits/src/dispatcher/mod.rs:668-774 | each entry is removed at most once, by executor, caller or close; its work starts at most once and only by the executor that removed it; a dispatcher-issued Cancelled or ClientGone means the work never started; the remover decides what the caller is told |
| `Dispatch.AnswersHaveCauses` | bits/src/dispatcher/mod.rs:652-799 | over every run: a value answered is what the work returned; a full queue had no permit free while permits were open; Cancelled and ClientGone had their reason under the guard at that step; closed means that close had begun or the work broke off; work was only started with its caller there and no reason against it |
| `Dispatch.WorkCompletes` | bits/src/dispatcher/executor/async_pool.rs:38-56 | with room for one, a run in which any value the work returns reaches the caller and permit, gauge and user slot are all given back |
| `Dispatch.CancelAbandons` | bits/src/dispatcher/mod.rs:728-764 | a run in which a cancelled waiting job is abandoned by its caller, its work never starts, and everything is given back |
| `Dispatch.DepartureAbandons` | bits/src/dispatcher/mod.rs:728-764 | the same for a waiting job whose client left, under the guard that asks for a client |
| `Dispatch.TakenThroughQueue` | bits/src/dispatcher/executor/async_pool.rs:38-46 | over every run, no executor gets at an entry before the call has enqueued it |
| `Dispatch.StrandedIsTold` | bits/src/dispatcher/mod.rs:487-491 | a caller stranded by close is told so once the closer sends |
| `Dispatch.PanickedIsTold` | bits/src/dispatcher/mod.rs:767-798 | a caller whose work breaks off is let go with the closed error, and its user slot is free |
| `Dispatch.DroppedCalls` | bits/src/dispatcher/executor/async_pool.rs:49-51 | a call can be dropped where it waits, and the work of a dropped call is not started |
| `Dispatch.NobodyForgotten` | bits/src/dispatcher/mod.rs:703-774 | a waiting caller's entry is pending, with an executor or with close, or its reply is already there; a pending one is still in the queue or in an executor's hands until the queue closes |
| `Dispatch.CloseStrandsNobody` | bits/src/dispatcher/mod.rs:475-492 | from the drain on the pending map stays empty in every later state, and every drained caller has been or is being told that the dispatcher is closed |
| `Dispatch.CloseRunsThrough` | bits/src/dispatcher/mod.rs:475-492 | closing runs through its steps from any state, and the drain strands exactly what is pending |
| `Dispatch.ResourcesConserved` | bits/src/dispatcher/mod.rs:652-765 | free permits plus held ones equal the capacity; the depth gauge equals the pending size up to steps in progress |
| `Dispatch.SlotHeldThroughout` | bits/src/dispatcher/mod.rs:633-690 | a call's user slot is held exactly while the call has not inserted its entry or the entry is pending, with an executor or won back, so in particular while the work runs; it is let go exactly once, on every way out and before the reply |
| `Claims.NatsClaim` | bits/src/db/nats.rs:774-841 | answer and effect are those of one atomic claim on the record at some moment of the call, Active never names the claimant; except exactly when it keeps losing |
| `Claims.KeepsLosingHappens` | bits/src/db/nats.rs:826-841 | three rewrites by the owner make the loop report Active for the expected owner, which the atomic store never does |
| `Claims.TikvClaim` | bits/src/db/tikv.rs:94-154 | success is one atomic claim; a conflict is reported if and only if both attempts were overtaken, and then nothing was written |
| `Ownership.StepKeeps` | bits/src/db/nats.rs:774-841 | every put, purge, read and write keeps the owner history and what each claim loop may still do |
| `Ownership.MovesWithinPuts` | bits/src/bits.rs:485-553 | over every run, with any puts by any broker, ownership moves by claim at most as often as the broker named in the id has put the record; a record put once moves at most once, away from that broker |
| `Ownership.MovesFromHome` | bits/src/bits.rs:485-553 | a claim that takes the record over takes it from the broker named in the id |
| `Ownership.OneWinner` | bits/src/bits.rs:485-553 | of a record put once, and by the broker named in the id, at most one other broker ever wins a claim |
| `Ownership.TwoPutsTwoWinners` | bits/src/db/nats.rs:758-767 | with a second put two brokers can win, whatever they are called |
| `Ownership.AttemptsWithinPuts` | bits/src/db/nats.rs:780-841 | each attempt that finds work to do needs one more put by the broker named in the id, and the guess after the last attempt needs four; a record put once is settled in two attempts |
| `Ownership.FourPutsReachTheGuess` | bits/src/db/nats.rs:826-841 | four puts do let a claim loop end in its guess, so the bound is attained |
| `Ownership.ReturnsAtomically` | bits/src/db/memory.rs:76-100 | the step that ends a claim loop has the answer and the effect of the atomic claim, unless it is the guess after four puts |
| `BrokerSlots.UniqueUnlessRegranted` | bits/src/db/nats.rs:684-753 | over every run, purges included, granted slots are pairwise distinct if and only if no grant follows a purge that follows a grant |
| `BrokerSlots.OneMoreGrant` | bits/src/db/nats.rs:684-753 | a grant keeps slots distinct if and only if the counter still counts every grant |
| `BrokerSlots.SlotsAreContiguous` | bits/src/db/nats.rs:684-753 | in every such run the i-th grant is slot i, so slots are contiguous from 0, and exhaustion is reported only after 65536 grants |
| `BrokerSlots.IdsNeverCollide` | bits/src/runtime/submission.rs:127-130 | in every such run ids made by two brokers of one site and environment differ for all timestamps and random bytes |
| `BrokerSlots.PurgeRepeatsSlots` | bits/src/db/nats.rs:684-753 | after any run with a grant, a purge lets the next allocator repeat a slot |
| `MemoryStore.Store.UpsertJob` | bits/src/db/memory.rs:58-65 | writes exactly this record; an id that does not decode is an error and changes nothing |
| `MemoryStore.Store.DeleteJob` | bits/src/db/memory.rs:67-73 | deletes exactly this record; a bad id is an error and changes nothing |
| `MemoryStore.Store.ClaimIfOwner` | bits/src/db/memory.rs:76-100 | is the atomic claim, on this record only |
| `MemoryStore.Store.DurableJobPresent` | bits/src/db/mod.rs:359-370 | tells presence, and changes the record if and only if its owner is the probe's placeholder |
| `MemoryStore.Store.AllocateBrokerSlot` | bits/src/db/memory.rs:152-173 | grants the counter's value while it is below 65536, counting on by one, and is exhausted from then on; no other site or environment's counter moves |
| `MemoryStore.Store.ReserveUserSlot` | bits/src/db/memory.rs:175-202 | is the reservation of the admission protocol and returns its ordinal |
| `MemoryStore.Store.ReleaseUserSlot` | bits/src/db/memory.rs:204-219 | is the release of the admission protocol |
| `MemoryStore.Store.ListUserSlots` | bits/src/db/memory.rs:221-231 | lists exactly the reservations of the key |
| `MemoryStore.Store.UpsertLease` | bits/src/db/memory.rs:105-127 | the broker counts as live exactly until now plus the lifetime, the lifetime can be read back, and no other broker's lease changes |
| `MemoryStore.Store.ReclaimUserSlots` | bits/src/db/memory.rs:243-255 | given the live set read before, is the reclaim of the admission protocol for that set, and counts what it removed |
| `Lease.ClaimOnlyWhenOver` | bits/src/bits.rs:480-505 | a poll that found nothing local claims if and only if the id is its own or the owner's lease is known to be missing or past its grace; it proxies if and only if another owner's lease is known to run, and stays queued if and only if that is not known |
| `Lease.Heartbeat` | bits/src/runtime/recovery.rs:264-319 | the loop writes one lease per successful round, with the waits of the source between them |
| `Lease.InstantRounds` | bits/src/runtime/recovery.rs:264-316 | with an instant store, rounds are half a lifetime apart but at least 100 ms, and a retry waits 500 ms but at most that long |
| `Lease.BeatsSpaced` | bits/src/runtime/recovery.rs:264-319 | with one success per round and lag within the slack, less some time to spare, each lease is visible that much before the one before it runs out |
| `Lease.NeverReclaimed` | bits/src/runtime/recovery.rs:23-33 | when store lag and the time between reading a lease and testing it stay within the slack together, every lookup of a renewing broker's lease from the first write on finds it active, so another broker's poll proxies and never claims |
| `Lease.GraceIsEnough` | bits/src/runtime/recovery.rs:23-29 | for lifetimes of at least a second, lag plus lookup time up to the grace is within the slack |
| `Lease.SlackIsPositive` | bits/src/runtime/recovery.rs:264-300 | an instant store keeps a lease alive if and only if the lifetime is at least two elevenths of a second |
| `Lease.SlackIsExact` | bits/src/runtime/recovery.rs:78-93 | whenever lag and lookup time exceed the slack together, two successful rounds can let a lookup find the lease over |
| `Lease.ClaimWithBackoff` | bits/src/runtime/recovery.rs:35-76 | retries exactly while the store fails with budget left, at most six attempts in all, none starting later than the timeout or two seconds; returns the last attempt's answer at the moment its latencies and cut pauses of 100, 200, 400, 800 and 1000 ms add up to; a backend error is returned only when that time is spent |
| `Lifecycle.StepKeeps` | bits/src/bits.rs:573-716 | every step of submit, run, persist, poll and sweep keeps counter, map, result slot and durable flag in agreement |
| `Lifecycle.ExecuteKeeps` | bits/src/bits.rs:573-716 | the same over every run |
| `Lifecycle.CounterAgrees` | bits/src/bits.rs:708-716 | the counter is the map size plus operations in transit, and no decrement ever finds it at zero |
| `Lifecycle.LimitHolds` | bits/src/runtime/submission.rs:53-103 | jobs admitted under the limit never exceed it, however many recovered jobs bypass it |
| `Lifecycle.OneReader` | bits/src/bits.rs:603-706 | a run's result is returned by at most one poller and is what its runner finished with; a submit poll never returns a success or redirect; by then its durable record has been handed to deletion if and only if there is one that no failed write left behind |
| `Lifecycle.PollerTakes` | bits/src/bits.rs:613-628 | a connected poller that finds a result takes it, unless it is a submit poll and the result is a success or redirect, which then stays in place |
| `Lifecycle.PollTimesOut` | bits/src/bits.rs:680-688 | a poll whose time is up reports pending and leaves everything where it is |
| `Lifecycle.SubmitDecides` | bits/src/runtime/submission.rs:53-103 | a submission gets past the limit if and only if there is room or it is a recovery, and into the map if and only if its id is vacant |
| `Lifecycle.SweepDecides` | bits/src/runtime/maintenance.rs:129-140 | the sweeper removes a run if and only if it has a result, its deadline is over and no poller is connected to it |
| `Lifecycle.SweptIsCleared` | bits/src/runtime/maintenance.rs:114-148 | what the sweeper removed was finished and out of the map; its durable record is deleted if and only if there is one that no failed write left behind |
| `Lifecycle.WatchedStays` | bits/src/runtime/maintenance.rs:114-140 | however long a client stays connected to a run, only a poller that has taken a result for that id removes it; the sweeper never does |
| `Lifecycle.WrittenOnce` | bits/src/runtime/runner.rs:61-119 | once written a result never changes again, and the durable flag is then final: set if and only if a record was written that no failed write left behind |
| `Lifecycle.LandedRecordStays` | bits/src/runtime/runner.rs:81-84 | for every id, a reachable state in which a write that failed after landing leaves a record that consumption does not delete |
| `Durable.RecordSurvives` | bits/src/bits.rs:573-580 | while no id is accepted twice, the store holds a run's record if and only if it was written and the deletion this run asked for has not been carried out |
| `Durable.ReuseErasesRecord` | bits/src/bits.rs:737-741 | for every id accepted again, a reachable state in which the first run's deletion took the second run's record, whose flag stays set |
| `Lifecycle.OnlyStaleLoses` | bits/src/bits.rs:708-716 | a step makes an unclaimed result unreachable if and only if a poller removes a newer run that reused the id |
| `Lifecycle.StaysFindable` | bits/src/bits.rs:603-706 | while no id is accepted twice, a run nobody took or swept is still in the map |
| `Lifecycle.ReuseLosesRun` | bits/src/bits.rs:672-677 | for every id, a reachable state in which a second run under it was lost that way |
| `AgeOrder.IntegerSqrt` | bits/src/dispatcher/queue/age_priority.rs:80-90 | the Newton loop ends with the exact floor of the square root, 1 for 0 |
| `AgeOrder.NeverSaturates` | bits/src/dispatcher/queue/age_priority.rs:71-72 | for 64-bit costs and any wait, the products stay below the 128-bit limit |
| `AgeOrder.TotalOrder` | bits/src/dispatcher/queue/age_priority.rs:65-78 | at any time the comparison is a total order, strict for distinct ordinals |
| `AgeOrder.OrderLaw` | bits/src/dispatcher/queue/age_priority.rs:65-78 | in terms of arrival, cost and ordinal alone: the lesser entry is the one whose wait times the other's root of cost is smaller, or on equality the one with the later ordinal |
| `AgeOrder.EarlierIsGreater` | bits/src/dispatcher/queue/age_priority.rs:65-78 | of two entries of equal cost the one that arrived earlier is the greater, whatever the ordinals |
| `AgeOrder.FlipsAtMostOnce` | bits/src/dispatcher/queue/age_priority.rs:65-78 | as time goes on two waiting entries change order at most once |
| `AgeQueue.Rebalanced` | bits/src/dispatcher/queue/age_priority.rs:92-99 | the same entries, sorted under the order of that moment |
| `AgeQueue.ServiceWaiters` | bits/src/dispatcher/queue/age_priority.rs:101-120 | the i-th delivery takes the i-th entry from the back and leaves exactly those before it, cancelled requests cost nothing, and the loop ends with entries or requests empty |
| `AgeQueue.Worker` | bits/src/dispatcher/queue/age_priority.rs:133-161 | over every sequence of turns: what arrived is delivered once or still stored; each delivery is the greatest of all that had arrived by its turn and was not yet delivered, in the order of the last turn that re-sorts; requests are served in order, and no turn ends with both a job and a request left |
| `CostQueue.Enqueued` | bits/src/dispatcher/queue/cost_weighted.rs:122-125 | the cost sent along is the job's own, 0 if it has none, so it can be read again |
| `CostQueue.Pop` | bits/src/dispatcher/queue/cost_weighted.rs:57-62 | takes exactly one entry, with the least (cost, ordinal) |
| `CostQueue.ServiceWaiters` | bits/src/dispatcher/queue/cost_weighted.rs:103-118 | each delivery is the least (cost, ordinal) of everything then stored, a failed send puts the same entry back, and the loop ends with heap or requests empty |
| `CostQueue.Worker` | bits/src/dispatcher/queue/cost_weighted.rs:84-119 | over every command sequence: what arrived is delivered once or still stored; each delivery is the least (cost, ordinal) of all that had arrived by its turn and was not yet delivered; requests are served in order, and no turn ends with both a job and a request left |
| `WorkerLog.TurnTimely` | bits/src/dispatcher/queue/cost_weighted.rs:88-118 | one more turn keeps the account of both workers: every delivery tells truly what stayed stored, and after every turn nothing is stored or every request has been served |
| `RequestId.PackTag` | bits/src/request_id.rs:119-134 | the loop computes the base-37 value of the padded tag, or the first error |
| `RequestId.SymbolOrder` | bits/src/request_id.rs:181-195 | digits count 0 to 9 and letters 10 to 35, both ways |
| `RequestId.UnpackPack` | bits/src/request_id.rs:136-164 | unpacking a packed tag gives the tag back |
| `RequestId.PackUnpack` | bits/src/request_id.rs:136-164 | packing what was unpacked gives the value back |
| `RequestId.Codec.EncodeBase32` | bits/src/request_id.rs:197-205 | the loop writes the 26 base-32 digits of the 16 bytes |
| `RequestId.Codec.DecodeBase32` | bits/src/request_id.rs:207-223 | the loop reads them back, or the first error |
| `RequestId.Codec.EncodeWithFixedRandom` | bits/src/request_id.rs:73-93 | the steps of the encoder compute the encoding |
| `RequestId.Codec.DecodeId` | bits/src/request_id.rs:95-117 | the steps of the decoder compute the decoding |
| `RequestId.Codec.EncodeAccepts` | bits/src/request_id.rs:73-93 | encoding succeeds if and only if both tags and the timestamp are in range |
| `RequestId.Codec.DecodeEncode` | bits/src/request_id.rs:95-117 | decoding an encoded id gives the tags, slot, random bytes and whole second back |
| `RequestId.Codec.EncodeDecode` | bits/src/request_id.rs:95-117 | re-encoding the fields of any accepted string gives that exact string |
| `RequestId.Codec.EncodeInjective` | bits/src/request_id.rs:73-93 | different fields give different ids |
| `RequestId.CrockfordWf` | bits/src/request_id.rs:12 | the 32 symbols are distinct |
| `Routing.ValidateRoute` | bits/src/routing/switch.rs:72-99 | accepts if and only if the route and all nested ones are non-empty and end, and only end, in a target or switch; an error describes a route that has that fault |
| `Routing.Validate` | bits/src/routing/switch.rs:63-69 | the same for every route of the tree |
| `Routing.Dispatch` | bits/src/routing/switch.rs:106-237 | on every tree and job: the answer of the first action in depth-first order that is reached and settles the dispatch, where a check lets a job through unchanged exactly on pass, a transform as the job it hands back, a target answers what it dispatches, and a gate's error, a missing client or a cancelled job settles it; otherwise the "; " join of the reasons of all reached actions that turn the job away aloud, as the configured silence or else the rejection's own flag says, silent exactly when there are none |
| `Routing.ReactIs` | bits/src/routing/switch.rs:117-205 | what one action does, in terms of its own function, gate and silence alone |
| `Routing.MeaningAnswers` | bits/src/routing/switch.rs:106-237 | the depth-first meaning answers as stated for the dispatch |
| `Routing.DispatchRoute` | bits/src/routing/switch.rs:109-222 | one route contributes what its reached actions do to the original job, and a sound route never falls off its end |
| `Routing.DecisiveIsFirst` | bits/src/routing/switch.rs:106-237 | an outcome is decisive if and only if some reached action ends with it and no earlier one ends |
| `Routing.CancelledJob` | bits/src/routing/switch.rs:114-116 | a cancelled job is answered Cancelled before any action looks at it |
| `Routing.SoundStops` | bits/src/routing/switch.rs:72-99 | no job gets past the end of a validated route |
| `RemotePool.StepKeeps` | bits/src/dispatcher/executor/remote_pool.rs:213-498 | every step keeps open claims matched with the map, ends final, and entries heard from since the last pass |
| `RemotePool.EndsOnce` | bits/src/dispatcher/executor/remote_pool.rs:257-310 | a claim is open exactly while the map points to it; its end and its reply never change once set |
| `RemotePool.CallerIsToldTheOutcome` | bits/src/dispatcher/executor/remote_pool.rs:273-310 | over every run: a posted body is answered as a success, a location as a redirect, a rejection silently with its reason, an error as the job's error, each posted while the claim was open; the answer is a resource error if and only if the claim ended without a post |
| `RemotePool.HeartbeatIsLastHeard` | bits/src/dispatcher/executor/remote_pool.rs:324-337 | an entry's heartbeat is the time of the last hand-out or heartbeat of its job |
| `RemotePool.ClaimsConserved` | bits/src/dispatcher/executor/remote_pool.rs:257-310 | every claim is in progress or over |
| `RemotePool.OnePostWins` | bits/src/dispatcher/executor/remote_pool.rs:339-498 | of racing completions exactly one finds the entry, and its claim can then be answered; the others change nothing |
| `RemotePool.YoungNeverEvicted` | bits/src/dispatcher/executor/remote_pool.rs:583-603 | over every run, a claim whose worker is never silent for a whole timeout is never evicted |
| `RemotePool.SilentAreGone` | bits/src/dispatcher/executor/remote_pool.rs:583-603 | who is still there was heard from within a timeout of the last pass, so within one and a half timeouts when passes are half a timeout apart |
| `RemotePool.VisitEvictsSilent` | bits/src/dispatcher/executor/remote_pool.rs:590-602 | a pass evicts an entry if and only if its last heartbeat is a full timeout older than the pass |
| `RemotePool.DrainResolvesAll` | bits/src/dispatcher/executor/remote_pool.rs:604-616 | after the shutdown drain every claim made before it began is over |
| `RemotePool.DropEndsClaim` | bits/src/dispatcher/executor/remote_pool.rs:604-616 | the drain starts from all entries, and dropping one ends its claim and takes it out |
| `RemotePool.OnlyPostOrReplace` | bits/src/dispatcher/executor/remote_pool.rs:604-616 | from then on a claim that is open was made after the drain began, and a step ends it if and only if its worker posts or its job is claimed again |
| `RemotePool.LateClaimStays` | bits/src/dispatcher/executor/remote_pool.rs:604-616 | such claims exist: one made after the drain stays open however long its worker is silent |

## Left out

- Fail-open admission: the failing steps are modelled, but the bounds speak of jobs decided by rank or count; a job let in because the store failed is outside them.
- Job ids in admission: each job id is admitted once; the asynchronous store release could otherwise remove a re-reserved entry.
- A lazy reservation still in flight when its caller is dropped can land after the store release (bits/src/dispatcher/mod.rs:345-352); no step does this. It leaves an entry behind that only makes later listings longer, until a reclaim.
- The age of a remembered count: a lazy decision may use any earlier listing of its broker, however old.
- Dispatch identities: dispatches in one dispatcher have distinct ids, so an entry is never overwritten.
- `Dispatch.SlotHeldThroughout`: follows the slot from the moment it is admitted; how it is admitted, and the store entry that goes with it, are in `Admission`.
- User slots behind a remote pool: the work future, and with it the slot, is dropped when a worker claims the job; nothing is claimed about slots held while a remote worker runs.
- Concurrency is modelled on values: sequentially consistent steps, one shared clock, no memory ordering, no fairness.
- The revisioned store's reserve and list are single atomic steps; the watch-based scan, tombstone lifetimes and bucket setup are not part of this model.
- The optimistic-transaction slot allocator has the same read-then-commit shape as the compare-and-set one and is not modelled separately.
- `Lifecycle.OneReader`: states single delivery per accepted run, not per id; a poll on the owner between consumption and the asynchronous delete can recover the durable record again.
- `Lifecycle` takes the reconnect deadline as a choice of the environment; only the presence guards of pollers are tracked.
- `Lease.NeverReclaimed`: speaks of the time before shutdown; the drain and the deletion of the lease are not modelled, and durations are exact reals.
- `Routing.Dispatch`: actions are deterministic functions of the job and cancellation is fixed while one dispatch runs; the shared-lock error of a dispatched transform is one of its possible errors.
- `AgeQueue.Worker` and `CostQueue.Worker`: a delivery is a send that succeeded; sorting and the heap of the library are represented by insertion sort and a scan.
- `RemotePool` starts at the claim; the pending entry's removal and the guard conditions before it are those of the executor in `Dispatch`.
- Proxying to the owner, HTTP servers, response streaming, configuration parsing, metrics, Python bindings: I/O or wide and shallow.
- The FIFO queue and the thread pool: a channel and the same loop as the async pool.
