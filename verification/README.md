# Protocols of the service, in Dafny

A model of the stateful protocols this service is built from, and proofs of what they promise over
whole runs. `dafny verify dfyconfig.toml` checks the project.

| modules | what they model |
|---|---|
| `Assignment`, `Groups`, `Broker`, `Runner`, `CycleTally` | the in-process broker, consumer groups, rebalancing, the poll-handle-commit cycle and what it reports |
| `GroupRuns`, `SoleMember`, `SteadyGroups`, `CommitsMoveBack` | what every run of a consumer group keeps, and what it keeps only under a condition |
| `TopicNames`, `Records`, `Envelope`, `Routing` | the retry ladder: topic names, retry metadata in headers, routing and replay |
| `LadderRuns`, `NoLoss` | the whole life of a record on the ladder, and the whole system at work |
| `Leases`, `Fencing`, `DistributedLock`, `LockBlocks`, `RedisLeases` | leases and fencing tokens, the lock block and runs of blocks, and the Redis scripts |
| `TtlCache`, `SingleFlight` | the bounded expiring cache and its per-key locks |
| `IdempotencyStore`, `IdempotencyMiddleware`, `IdempotencyRuns`, `Fingerprint` | two-phase idempotency |
| `RefreshFamilies` | refresh-token rotation and family revocation |
| `EntityTags` | the entity-tag list scanner |
| `Prelude`, `Text` | shared types; decimal printing and parsing |

Objects the service updates in place are classes. Their methods are proved equal to step functions on
values, and the theorems about runs are proved of those step functions, in any order and any
interleaving. `Start`, `Stop` and `Rebalance` of the broker change several objects at once: they are
specified by the roster they leave and by what each member then holds, which is what the step
functions assign (`Broker.HeldIsApplied`). Clock readings, random or minted values, password checks and JWT decoding are
parameters. Exceptions are results. Time never goes backwards.

Where the code and its documentation differ, the model follows the code:

- `renewed_for` says a resource keeps accepting writes under one token. `fence_is_current` is strict,
  so a lease gets one accepted write per resource (`Fencing.SecondWriteRefused`).
- Replay is documented to refuse records whose key was invented. It refuses on a flag that does not
  survive a second hop: `Routing.ReplayRefusesIff` says exactly which copies are refused, and
  `Routing.InventedKeyIsReplayed` gives, for every origin, a record with an invented key that is put back.
- Lock names are documented as printable characters only. The pattern ends in `$`, which also admits
  one final newline (`Leases.ValidNamesArePrintable`).
- A tier is documented as ordered by due time. That holds exactly when the tier's name is not also a
  dead-letter topic or its delay is rounded to nothing (`LadderRuns.DueOrderedIff`).
- The ladder is documented as finite. Its bound holds as long as nobody routes a record whose attempts
  exceed the tiers (`LadderRuns.WithinTheLadder`). A routing consumer on a dead-letter topic does just
  that, and each time the record goes back to the same topic with one more attempt, without end
  (`LadderRuns.DeadLettersCanCircle`).
- A key is documented as executed once. That holds for a key exactly when no request for it arrives
  after a running execution of it has outlived its reservation (`IdempotencyRuns.AtMostOneIffNoneLate`).
- `origin_of` inverts the naming convention exactly when a tier's name does not end in the dead-letter
  suffix (`TopicNames.TierNameInvertible`, with a counterexample in `TopicNames.DigitSuffixHidesATier`).

- The wait reported for deferrals is documented as the soonest. It is the smallest delay exactly unless
  some delay is zero and the last one is not, because zero doubles as "none yet"
  (`CycleTally.SmallestDeferralIff`).
- Two sources in one group are documented to split the partitions. Members that list no topic twice
  cover every partition they name exactly when they all name the same topics
  (`Assignment.CoversIffSameTopics`).

Committed offsets are always safe, and they never move back as long as the members name the same topics
and nobody joins or leaves while a batch is being handled (`SteadyGroups.CommitsNeverMoveBack`). The
commit's own guard looks only at the present assignment, so without either condition they do move back:
`CommitsMoveBack` holds a run for each.

## Model

| member | source | states |
|---|---|---|
| Assignment.SortIsCanonical | src/kafka/memory.py:212-217 | sorting depends only on which topics are named, so members that list the same topics in different orders compute the same partition list |
| Assignment.SortSorts | src/kafka/memory.py:212-217 | topics are taken in code-point order, each as often as it is named |
| Assignment.EveryPartitionHasOneOwner | src/kafka/memory.py:368-387 | when all members name the same duplicate-free topics, every partition of those topics has exactly one owner and nobody owns anything else |
| Assignment.DifferentTopicsLeaveGaps | src/kafka/memory.py:378-387 | for duplicate-free lists, a topic some member does not name, given as many partitions as there are members, has a partition nobody owns |
| Assignment.CoversIffSameTopics | src/kafka/memory.py:368-387 | members that list no topic twice cover every partition they name, for every number of partitions, exactly when they all name the same topics |
| Assignment.GapBetweenTwo | src/kafka/memory.py:378-387 | the smallest group with a partition nobody owns |
| Broker.PartitionFor | src/kafka/memory.py:114-123 | the partition chosen exists, for any key and any count |
| Broker.AppendKeepsKeys | src/kafka/memory.py:114-132 | appending keeps every keyed record of the topic on the one partition its key hashes to |
| Broker.KeylessTakeTurns | src/kafka/memory.py:114-132 | records without a key go round the partitions one after another, and keyed ones take no turn |
| Broker.StartsWhereToldTo | src/kafka/memory.py:398-404 | a partition is first read past the committed offset, and without one from the start of the log or from its end as configured |
| Broker.InMemoryBroker.DeclareTopics | src/kafka/memory.py:204-217 | topics named for the first time appear empty, the others keep their logs |
| Broker.InMemoryBroker.CreateTopic | src/kafka/memory.py:190-202 | a new topic gets the partitions asked for, an existing one is left alone and reported |
| Broker.InMemoryBroker.Publish | src/kafka/memory.py:288-308 | an accepted record is the last of exactly one partition log and nothing else changes; a stopped publisher or an invalid record changes nothing |
| Broker.InMemoryMessageSource.Apply | src/kafka/memory.py:389-404 | positions after an assignment are exactly the starting positions of the partitions assigned |
| Broker.InMemoryMessageSource.Drain | src/kafka/memory.py:425-439 | the batch is, per partition, the run of log records from the old position to the new one, at most the limit in all, as the group step function says |
| Broker.InMemoryMessageSource.Poll | src/kafka/memory.py:406-439 | refusals leave positions alone; otherwise as the drain, and either the batch is full or every assigned log is read to its end |
| Broker.InMemoryMessageSource.Commit | src/kafka/memory.py:441-457 | offsets are stored up to the first partition that is not this member's, and other groups are untouched |
| Broker.InMemoryMessageSource.Seek | src/kafka/memory.py:459-464 | only an assigned partition's position moves |
| Broker.InMemoryMessageSource.Start | src/kafka/memory.py:348-355 | joining adds this member at the end of the roster and redistributes; starting twice changes nothing |
| Broker.InMemoryMessageSource.Stop | src/kafka/memory.py:357-366 | leaving drops every claim of this member, the others keep their order and are dealt anew; stopping twice changes nothing |
| Broker.Rebalance | src/kafka/memory.py:368-396 | afterwards every member of the group holds its share, at the committed or starting positions |
| Broker.HeldIsApplied | src/kafka/memory.py:389-404 | what a rebalanced member that reads from earliest holds is what the group step function assigns it |
| GroupRuns.DrainIsABatch | src/kafka/memory.py:425-439 | a drain takes one contiguous run per partition, from the old position to the new one and within the log, and leaves other positions alone |
| GroupRuns.DrainFills | src/kafka/memory.py:425-439 | a drain takes no more than there is room for, and stops only when the batch is full or every assigned partition is read to its end |
| GroupRuns.DrainInOrder | src/kafka/memory.py:425-439 | behind a partition left short of its end nothing is read |
| GroupRuns.StepSafe | src/kafka/memory.py:348-464 | every step of any member keeps the group's safety invariant |
| GroupRuns.CommitSafety | src/kafka/runner.py:282-318 | in every run of joins, leaves, rebalances mid-batch, failures and cancellations, every offset below a committed one has had its handler return, and first returns on a partition come in offset order without gaps |
| SoleMember.RestartChangesNothing | src/kafka/runner.py:269-335 | for a member that has its group to itself, whenever it is between cycles, stopping and starting it gives back the same member, assignment and positions included |
| SteadyGroups.CommitsNeverMoveBack | src/kafka/memory.py:441-457 | with any number of members naming one duplicate-free topic set, and joins and leaves only between cycles, what was committed at any point of a run is still covered at its end |
| SteadyGroups.EverybodyCanRestart | src/kafka/memory.py:389-404 | in such a run every member between cycles, not only a sole one, is where its committed offsets would put it |
| CommitsMoveBack.JoiningMidBatchMovesBack | src/kafka/memory.py:441-457 | a run of two members with the same topic in which a join and a leave during a batch take a committed offset from 2 back to 1 |
| CommitsMoveBack.DifferentTopicsMoveBack | src/kafka/memory.py:378-387 | a run with joins only between cycles in which members naming different topics own one partition together and its committed offset goes from 2 back to 1 |
| Runner.GroupUp | src/kafka/runner.py:282-284 | grouping a batch keeps each partition's records together, in offset order and unbroken |
| Runner.ConsumerRunner.SeekBack | src/kafka/runner.py:413-432 | moves the position of an assigned partition back to the record and swallows the refusal otherwise |
| Runner.ConsumerRunner.HandlePartition | src/kafka/runner.py:294-316 | one partition's records are handled as the group's steps say, up to the first that is not done |
| Runner.ConsumerRunner.ConsumeOnce | src/kafka/runner.py:269-335 | a whole cycle is the poll step, a return or halt step for each record, and the commit step, with all counts and the failure table to match |
| Runner.SettleStopsAtFirst | src/kafka/runner.py:293-318 | each partition commits and reads on at exactly its first record that was not done, whatever happens on other partitions |
| CycleTally.CycleReports | src/kafka/runner.py:286-335 | delivered, failed and deferred are counted by where each partition stopped and why; the failure table has 1 for a partition that failed after progress and one more otherwise, drops a partition that only made progress and keeps the rest; the retry delay is the largest backoff of those that failed |
| CycleTally.SmallestDeferralIff | src/kafka/runner.py:302-304 | the reported deferral is the smallest one exactly unless one was zero and the last was not |
| CycleTally.Wait | src/kafka/runner.py:191-200 | zero when neither wait is set, otherwise the shorter of those that are |
| Runner.CycleAccounted | src/kafka/runner.py:269-335 | one whole cycle keeps a sole member's positions equal to its committed offsets |
| TopicNames.TierDelaysGrow | src/dlq/base.py:236-241 | tier delays are positive, within the cap and never shrink down the ladder |
| TopicNames.TierDelayStep | src/dlq/base.py:236-241 | the first tier waits the base delay, each further one the multiplier times the one before, capped, up to the exponent's limit |
| TopicNames.OriginOfIsSound | src/dlq/base.py:283-297 | an origin is read only out of a name the convention can have built from it |
| TopicNames.LadderForIff | src/dlq/base.py:249-277 | a ladder is built exactly for a name that is not empty and not on a ladder, with every topic as the convention spells it |
| TopicNames.DeadLetterNameInvertible | src/dlq/base.py:246-247 | the origin of a dead-letter name is recovered for every non-empty origin |
| TopicNames.TierNameInvertible | src/dlq/base.py:283-297 | the origin of a tier name is recovered exactly unless the name also ends in the dead-letter suffix |
| TopicNames.NamesInvertible | src/dlq/base.py:243-297 | with a suffix that does not end in a digit every name of a ladder leads back to its origin |
| TopicNames.DigitSuffixHidesATier | src/dlq/base.py:283-297 | a concrete policy under which a tier's name is read back as another origin |
| TopicNames.TierNamesDistinct | src/dlq/base.py:243-244 | tier names are one-to-one in origin and index |
| TopicNames.LadderTopicsDiffer | src/dlq/base.py:142-149 | two topics of one ladder coincide only if the dead-letter suffix spells out a tier's |
| TopicNames.LaddersDisjoint | src/dlq/base.py:249-277 | with such a suffix, ladders of different admitted origins share no topic |
| TopicNames.OnOneLadder | src/dlq/base.py:249-297 | with such a suffix, every topic of a ladder names its origin, or is it |
| Envelope.Read | src/dlq/envelope.py:221-274 | an envelope that is read satisfies the envelope's own validation |
| Envelope.ReadIff | src/dlq/envelope.py:221-274 | for any headers, an envelope is read exactly when the first header of each name decodes to it and it is valid, and none exactly when there is no attempt count |
| Envelope.TruncateBounded | src/dlq/envelope.py:114-122 | truncation is bounded by the limit, keeps short text and is idempotent |
| Envelope.StripLeavesOthers | src/dlq/envelope.py:203-207 | stripping keeps exactly the application's headers, in order, and is idempotent |
| Envelope.StampReplaces | src/dlq/envelope.py:203-218 | stripping a stamped list gives the application's headers back, and stamping twice is stamping once |
| Envelope.ReadUndoesStamp | src/dlq/envelope.py:178-274 | a stamped record reads back as the envelope it was stamped with, error truncated, whatever headers it carried |
| Envelope.NothingOfOurs | src/dlq/envelope.py:221-288 | a record with none of the ladder's headers reads as one that never failed and was never replayed |
| Envelope.DueAtMonotone | src/dlq/envelope.py:341-349 | with one delay, a later clock reading never gives an earlier due time |
| Envelope.DueAtIsNearest | src/dlq/envelope.py:341-349 | a due time is the delay asked for rounded to the nearest microsecond |
| Routing.RepublishKeepsRecord | src/dlq/router.py:307-367 | a republished record has the same value and application headers, is accepted by the publisher, and reads back as its envelope |
| Routing.RouteMovesOneRung | src/dlq/router.py:165-224 | a routed record is one attempt on, on the tier of that attempt or the dead-letter topic, due when it should be, with this failure's text and with origin, first failure and replay count kept |
| Routing.RouteKeepsRecord | src/dlq/router.py:165-224 | what is routed keeps payload and application headers, readable headers or not |
| Routing.RouteRefusesIff | src/dlq/router.py:140-163 | routing refuses exactly when no ladder can be built for the origin or a first failure carries a negative replay count |
| Routing.UnreadableIsDeadLettered | src/dlq/router.py:264-305 | a record whose headers cannot be read is dead-lettered at once with its own coordinates and the reason |
| Routing.WrapperRoutesFailures | src/dlq/handler.py:85-103 | the wrapper publishes exactly the failures the router can place and passes every other ending on |
| Routing.InventedKeysDiffer | src/dlq/router.py:324-367 | an invented key determines the topic, partition and offset its record first came from |
| Routing.ReplayRestores | src/dlq/replay.py:95-196 | a replayed record is back on its origin with its key, value and application headers, reads as never failed, and is one lap on |
| Routing.FlagOnlyForKeylessSource | src/dlq/router.py:324-367 | the invented-key flag is present exactly when the copy's own source had neither key nor value |
| Routing.ReplayRefusesIff | src/dlq/replay.py:95-150 | a routed copy is refused by replay exactly when its source had neither key nor value, its origin is on a ladder or its replays are used up; otherwise it is put back on its origin |
| Routing.InventedKeyIsReplayed | src/dlq/replay.py:119-125 | for every admitted origin, a record with neither key nor value is refused after its first failure and put back with its invented key after its second |
| LadderRuns.RouteHopClimbs | src/dlq/router.py:165-224 | any routing, of a dead letter too, adds one attempt, keeps the replay count and keeps the record |
| LadderRuns.ReplayHopLaps | src/dlq/replay.py:126-164 | one replay starts the ladder over with one more lap counted |
| LadderRuns.LadderTerminates | src/dlq/base.py:166-177 | a chain of copies of a record that starts untouched has at most (replays + 1) * (tiers + 1) + replays hops, plus one for each routing of a record that had used up its ladder, and its last copy has the payload and headers of the first |
| LadderRuns.WithinTheLadder | src/dlq/base.py:166-177 | the bound without the addition, for chains in which no record with more attempts than tiers is routed |
| LadderRuns.DeadLettersCanCircle | src/dlq/router.py:165-224 | without that condition there is no bound: for every admitted origin and every length, a chain of routings that long from a record that never failed |
| LadderRuns.TierRecordDue | src/dlq/router.py:171-205 | a router-written tier record is due exactly one tier delay after it was written |
| LadderRuns.DueOrderedIff | src/dlq/base.py:36-42 | due times never decrease with offset in a tier partition exactly when the tier's name is not also a dead-letter topic or its delay is rounded to nothing |
| LadderRuns.HeadStallIsComplete | src/dlq/handler.py:136-142 | if the due-time gate turns a record away it turns away every router-written record behind it, for at least as long |
| LadderRuns.GateOpensWhenDue | src/dlq/handler.py:136-142 | a record is let through from its due time less the grace, and until then put off by exactly the time left; without an envelope it passes |
| LadderRuns.TierRecordIsHandled | src/dlq/handler.py:136-142 | a record the router put on a tier is handled from one tier delay after it was put there |
| NoLoss.MoveSafe | src/dlq/handler.py:85-103 | every move of producers, runners, routers and replayers keeps the invariant that each return of a group's wrapped handler is backed by that group's application or that group's copy |
| NoLoss.NoRecordLost | src/dlq/handler.py:85-103 | in every run with failures, refused publishes, rebalances and cancellations between publish and commit, an origin record below its group's commit was handled by that group, or that group's own copy leads through the retry group's own routings to a copy with the same payload and application headers that the retry group handled, that is dead-lettered, or that still waits; other groups never count |
| NoLoss.HandlerTurn | src/dlq/handler.py:85-103 | one turn of a routing handler in every case: a return is recorded, a routable failure is published and passed, anything else leaves the record to be read again |
| Leases.ValidNamesArePrintable | src/distributed_lock/base.py:307-322 | a usable name is printable exactly unless it ends in a newline |
| Leases.UsableNames | src/distributed_lock/base.py:307-322 | a printable name is usable exactly from 1 to 255 characters, and with a newline after it up to 254 |
| Leases.InMemoryLockBackend.Live | src/distributed_lock/memory.py:73-86 | a live claim is returned, an expired one is dropped, others are untouched |
| Leases.InMemoryLockBackend.Acquire | src/distributed_lock/memory.py:88-111 | granted exactly when no live claim stands, with the next token of the name |
| Leases.InMemoryLockBackend.Extend | src/distributed_lock/memory.py:113-122 | the deadline moves exactly when the live claim carries the lease's token |
| Leases.InMemoryLockBackend.Release | src/distributed_lock/memory.py:124-132 | the claim goes exactly when it carries the lease's token; otherwise the outcome says why |
| Leases.InMemoryLockBackend.Inspect | src/distributed_lock/memory.py:134-144 | reports the live holder with the time left, never negative |
| Leases.InMemoryLockBackend.Clear | src/distributed_lock/memory.py:149-157 | claims go, counters stay |
| Fencing.FencingHolds | src/distributed_lock/memory.py:73-132 | in every run tokens of a name strictly increase and never repeat, and the writes a resource applies carry strictly increasing tokens in the order the lock was acquired |
| Fencing.StaleHolderHarmless | src/distributed_lock/memory.py:113-132 | once a name is granted again, the earlier lease can neither extend nor release, and trying changes no claim live then or later |
| Fencing.SecondWriteRefused | src/distributed_lock/base.py:325-333 | after one accepted write under a lease, every later write to that resource under it is refused, in every run |
| Fencing.AcceptedIff | src/distributed_lock/base.py:325-333 | a write is applied exactly when none made under the same acquisition or a later one has been |
| Fencing.RefusedRenewalIsFinal | src/distributed_lock/lock.py:356-394 | after a refused renewal no later release of that lease is confirmed, so the lost flag and the store's answer never disagree |
| Fencing.ConfirmedExit | src/distributed_lock/memory.py:88-132 | if the store confirms a release, no other acquisition of the name succeeded since the grant, whatever happened in between |
| Fencing.GrantedIff | src/distributed_lock/memory.py:73-132 | a name is granted exactly when no claim runs, and a claim runs to its deadline, moved by renewals, or to its release |
| Fencing.ClaimStands | src/distributed_lock/memory.py:73-132 | before its deadline nobody but the holder can end or move a claim, so the holder's renewal succeeds and its release is confirmed |
| Fencing.GrantStands | src/distributed_lock/memory.py:88-111 | what is granted holds its name for the lifetime asked for |
| LockBlocks.CallIsItsSteps | src/distributed_lock/lock.py:183-255 | what a block's enter, renew and exit do to the store are the acquire, extend, release and look of the acquisition it holds |
| LockBlocks.QuietBlockWasProtected | src/distributed_lock/lock.py:183-255 | over any run of blocks and other steps, a block that ends quietly with its body done and the store answering was the only holder of the name since it was entered, and the lost error is raised exactly when the store does not confirm |
| DistributedLock.Lock.Enter | src/distributed_lock/lock.py:183-203 | entering twice is refused; otherwise the block holds the lease granted, or none |
| DistributedLock.Lock.Renew | src/distributed_lock/lock.py:356-394 | an unreachable store changes nothing, a refusal marks the lease lost and stops the loop, a success replaces the lease |
| DistributedLock.Lock.Exit | src/distributed_lock/lock.py:205-255 | the lost-lease error is raised exactly when the lease is known lost and the body did not fail; silence from the store is not evidence |
| DistributedLock.LeaseMatchesStore | src/distributed_lock/lock.py:183-203 | after entering and after every renewal the lease's deadline is the store's |
| DistributedLock.EntersIff | src/distributed_lock/lock.py:183-203 | a block is entered exactly when it is not open and the name is free |
| DistributedLock.RaisesIff | src/distributed_lock/lock.py:205-255 | the lost error is raised exactly when the body did not fail and a renewal was refused or the store says the lease is not this block's |
| RedisLeases.SplitUndoesLockValue | src/distributed_lock/redis_backend.py:120-134 | splitting undoes building for every token and owner, colons included |
| RedisLeases.LocalDeadlineIsEarlier | src/distributed_lock/redis_backend.py:300-310 | a deadline computed from a reading before the request is not past the one the script sets, and rounding adds less than a millisecond |
| RedisLeases.LocalDeadlinesHold | src/distributed_lock/redis_backend.py:184-233 | over every sequence of calls, while a key carries a lease's value the lease's own deadline is not past the key's |
| RedisLeases.LockKeysDiffer | src/distributed_lock/redis_backend.py:178-182 | lock keys and fence keys never collide and determine their names |
| RedisLeases.AcquireRefines | src/distributed_lock/redis_backend.py:68-76 | the acquire script answers and moves as the in-process backend |
| RedisLeases.ExtendRefines | src/distributed_lock/redis_backend.py:83-89 | the extend script, comparing whole values, answers and moves as the in-process backend comparing tokens |
| RedisLeases.ReleaseRefines | src/distributed_lock/redis_backend.py:96-111 | the release script answers and moves as the in-process backend, outcome for outcome |
| RedisLeases.RedisRefinesMemory | src/distributed_lock/redis_backend.py:184-245 | over every sequence of calls the scripts give the answers of the in-process backend, token for token |
| TtlCache.TtlStore.Peek | src/decorators/cache.py:184-194 | a live entry is found and becomes the most recent, an expired one is dropped and counted |
| TtlCache.TtlStore.Set | src/decorators/cache.py:202-207 | the entry becomes the most recent, the oldest going first if a new key finds the store full |
| TtlCache.TtlStore.Invalidate | src/decorators/cache.py:209-210 | drops one key and says whether it was there |
| TtlCache.TtlStore.Clear | src/decorators/cache.py:212-217 | empties the store and resets every counter |
| TtlCache.TtlStore.Call | src/decorators/cache.py:283-293 | a live entry is returned as a hit, otherwise the function's value is stored and returned as a miss |
| TtlCache.CacheRefinesMap | src/decorators/cache.py:184-217 | after any run a hit is the latest value set and younger than the TTL, the size is bounded, new-key inserts balance size, evictions, expirations and invalidations, and with no eviction a look-up finds exactly what a plain timestamped map calls young |
| TtlCache.EvictsLeastRecentlyTouched | src/decorators/cache.py:202-207 | what is evicted was set or found longer ago than everything kept |
| TtlCache.EvictsIffFull | src/decorators/cache.py:202-207 | an entry is evicted exactly when a new key finds the store full, and nothing else is lost |
| TtlCache.PeekIff | src/decorators/cache.py:184-194 | a look-up finds exactly the entries that have not expired and drops only those that have |
| SingleFlight.SlotTable.AcquireSlot | src/decorators/cache.py:343-349 | a key's callers share one lock, made for the first of them, and are counted |
| SingleFlight.SlotTable.ReleaseSlot | src/decorators/cache.py:351-357 | the lock goes with the last caller and not before |
| SingleFlight.OneFlightPerKey | src/decorators/cache.py:318-357 | under every interleaving of arrivals, failures, cancellations, lapses and clears at most one call runs per key, no release finds its slot missing, and a lock is kept exactly while somebody is inside |
| SingleFlight.CallsAreBounded | src/decorators/cache.py:318-341 | over a whole run a key is called at most once, plus once for each call that failed and each time its entry was lost, so whoever queues behind a success is answered from the store |
| SingleFlight.QueueMoves | src/decorators/cache.py:318-357 | whenever nobody runs a key every caller queued for it can go on, to the stored value or to the call, and a call that ends leaves its key like that |
| IdempotencyStore.InMemoryIdempotencyStore.Live | src/idempotency/memory.py:44-58 | a live record is returned, an expired one dropped |
| IdempotencyStore.InMemoryIdempotencyStore.Reserve | src/idempotency/memory.py:60-69 | a live record is returned unchanged, otherwise the key is reserved |
| IdempotencyStore.InMemoryIdempotencyStore.Complete | src/idempotency/memory.py:71-73 | the finished record replaces whatever was there |
| IdempotencyStore.InMemoryIdempotencyStore.Release | src/idempotency/memory.py:75-77 | the key is free, other keys untouched |
| IdempotencyMiddleware.BufferRequest | src/middleware/idempotency.py:234-261 | reading stops at the end of the body or the first excess byte, the body is what was read, and what was buffered with what the socket still holds is the stream |
| IdempotencyMiddleware.ReplayReceive.Receive | src/middleware/idempotency.py:128-143 | messages come out in stream order, none lost, none twice |
| IdempotencyMiddleware.Capture.Send | src/middleware/idempotency.py:309-334 | the capture stays a faithful copy of what the application sent, or is marked oversized, and the client is sent every part |
| IdempotencyMiddleware.ClientGetsTheResponse | src/middleware/idempotency.py:309-334 | the first client gets the application's status and body, and its headers with the key added |
| IdempotencyMiddleware.Capture.Conclude | src/middleware/idempotency.py:361-373 | only a finished response within the limit that neither failed nor invites a retry is kept |
| IdempotencyMiddleware.KeptIff | src/middleware/idempotency.py:356-373 | a response is kept exactly if it is finished, within the limit, below 500 and not 408, 425 or 429 |
| IdempotencyMiddleware.EachHeaderOnItsOwn | src/middleware/idempotency.py:363-373 | dropping cookies keeps every other header as often as it was there and in its order |
| IdempotencyMiddleware.AnswerIff | src/middleware/idempotency.py:263-291 | a different request is refused whether or not the first has finished; the same one is told to wait or is replayed |
| IdempotencyMiddleware.ReplayIsTheResponse | src/middleware/idempotency.py:263-291 | a replay has the original's status, body and headers in order, without cookies, plus the two marks |
| IdempotencyRuns.AtMostOneIffNoneLate | src/middleware/idempotency.py:212-227 | a key has at most one execution throughout a run exactly when no request for it arrives after a running execution of it has outlived its reservation |
| IdempotencyRuns.AtMostOneExecution | src/middleware/idempotency.py:212-227 | so every key has at most one execution throughout if executions settle before their reservations expire |
| IdempotencyRuns.OverrunningExecutionIsJoined | src/idempotency/memory.py:60-69 | an execution that overruns its reservation is joined by a second one |
| IdempotencyRuns.CompletionIsFinal | src/middleware/idempotency.py:263-381 | after a stored completion and until it expires nothing runs for the key, the same request is replayed and any other is refused |
| IdempotencyRuns.RetryGetsTheResponse | src/middleware/idempotency.py:263-381 | until the record expires, whatever happens in between, the same request is replayed the status, body and cookie-free headers the first client was sent |
| IdempotencyRuns.NextRequestRunsIff | src/middleware/idempotency.py:336-381 | after the one execution of a key settles, the next request runs exactly when the response was not worth keeping or its record has expired |
| Fingerprint.DigestInput | src/idempotency/base.py:230-240 | the bytes fed to the digest are the length-prefixed parts in order |
| Fingerprint.EncodeInjective | src/idempotency/base.py:226-241 | different part lists give different bytes |
| Fingerprint.RequestsDoNotCollide | src/idempotency/base.py:212-241 | two requests feed the digest the same bytes only if all five parts agree |
| RefreshFamilies.AuthService.RevokeFamily | src/repositories/refresh_token.py:57-82 | every live member of the family is revoked, the provenance of the others stays, and the count is the members that were live |
| RefreshFamilies.AuthService.IssueTokens | src/auth/service.py:321-357 | one live row joins the family and nothing else changes |
| RefreshFamilies.AuthService.Login | src/auth/service.py:100-138 | a refusal commits nothing; a success commits one token of a new family with its event |
| RefreshFamilies.AuthService.HandleReuse | src/auth/service.py:205-249 | the revocation and its event are committed together before the refusal |
| RefreshFamilies.AuthService.Refresh | src/auth/service.py:140-203 | what is committed is a rotation, a reuse response or nothing |
| RefreshFamilies.AuthService.Logout | src/auth/service.py:300-319 | the presented token's family is revoked; an unknown token is no error |
| RefreshFamilies.LoginSucceedsIff | src/auth/service.py:100-138 | a login succeeds exactly with the right password on an active account, and then adds one live token of a new family and its event |
| RefreshFamilies.RefreshSucceedsIff | src/auth/service.py:140-203 | a refresh succeeds exactly for a live, unexpired refresh token of an active user; the successor has its user and family and it is marked rotated |
| RefreshFamilies.EndingIsRecorded | src/auth/service.py:205-319 | a logout marks the family's live tokens as logged out and a reuse marks them as reused, with the time, and neither touches anything else |
| RefreshFamilies.FamilyRevokedMarks | src/repositories/refresh_token.py:57-82 | revoking a family marks its live tokens with the reason and time and changes nothing else |
| RefreshFamilies.OneLiveTokenPerFamily | src/auth/service.py:140-249 | in every committed state a family has at most one unrevoked token, and every reuse event names a family that has ended |
| RefreshFamilies.EndedStaysEnded | src/auth/service.py:140-203 | a family without a live token never gains one again |
| RefreshFamilies.LogoutAndReuseEnd | src/auth/service.py:205-319 | a logout with any of its tokens and a refresh with a revoked one end the family |
| RefreshFamilies.RefreshCommits | src/auth/service.py:140-249 | a refresh refused for anything but reuse commits nothing, a reuse event is committed exactly with its revocation, and a success moves the one live link |
| RefreshFamilies.RevocationIsKept | src/repositories/refresh_token.py:57-82 | over any run, deletions of expired rows included, a revocation is never undone or rewritten |
| EntityTags.GrammarCharacters | src/concurrency/tags.py:33-36 | the characters a tag may hold and the two that pad a list, by code |
| EntityTags.ScanAcceptsLists | src/concurrency/tags.py:87-129 | every list of the grammar is accepted with its tags in order |
| EntityTags.ScanIsTheGrammar | src/concurrency/tags.py:33-129 | the scanner returns some tags for a text exactly when the grammar assigns it those tags |
| EntityTags.SkipPadding | src/concurrency/tags.py:104-105 | skips exactly the whitespace in front |
| EntityTags.ParseEntityTagList | src/concurrency/tags.py:87-129 | the index loop terminates and accepts exactly the lists of the grammar |
| EntityTags.ScanUndoesJoin | src/concurrency/tags.py:70-129 | scanning undoes serialising and joining, commas in values included |

## Left out

- The aiokafka, redis-py and SQLAlchemy drivers: foreign libraries; the in-process broker, the scripts and atomic transactions stand for them.
- Hashing, JWT signing, argon2 and UUIDs: functions that are not looked into, or values assumed new.
- `_fnv1a`: any fixed function of the key; nothing depends on which.
- Waiting: the lock's retry loop, poll timeouts and append notifications, and jittered delays; a random wait has no termination measure.
- Broker.InMemoryMessageSource.Poll: models the drain, not the wait for an append until the deadline.
- DistributedLock.Lock.Enter: models one attempt, not the loop that retries it until the wait runs out.
- Runner.ConsumerRunner.ConsumeOnce: models a cycle during which nobody else acts on the group, with handlers as total functions of the record; `GroupRuns.CommitSafety` covers the interleavings.
- `run` and `_loop` of the runner: start, stop and backing off around the cycle; a cancelled batch followed by stop is a step of the group runs.
- `auto_offset_reset="latest"` is in the classes, not in the run theorems, and so are groups whose members subscribe to different topics.
- UTF-8 and Latin-1 decoding: header bytes are text or not; digits in numbers are ASCII digits.
- ISO timestamps: a printer and a parser assumed to round-trip, as the standard library's do.
- Redis expiry: a key is gone at its deadline, and integers are unbounded.
- AuthService: concurrent calls are whole transactions one after another; OAuth sign-in and registration add nothing to families but new ones.
- Constructor argument checks, log lines, exact exception messages and float rounding.
- Strong and weak comparison of entity tags: two one-line comparisons.
- Cache keys (`make_key`, `signature_key`): any values with equality.
- `src/encryption`, configuration, factories, probes, events, notifications, observability, migrations and routers: plumbing or easy facts.
