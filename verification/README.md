# Prospero's event and ownership plane, modelled and proved

Prospero supervises a fleet of coding agents.  Several `prosperod` replicas share one
durable event log, one lease table and one set of configuration tables, and must still
behave like a single writer.  This project models that plane in Dafny and proves what its
documentation promises about it, over every run and every interleaving of the model.

`dafny verify dfyconfig.toml` checks everything.

| part | modules |
|---|---|
| Leases and who drives an agent | `Leases`, `LeasedOwnership`, `SingleWriter`, `LeaseDiscipline`, `LeaseHazards`, `LeaseNecessity`, `LeaseHandoff` |
| Sequencing, persisting and publishing events | `EventLog`, `Emitter`, `EmitterProtocol`, `EmitterRuns`, `SerialEmitter`, `LostEvents` |
| Delivering them | `Doorbell`, `FleetStream` |
| Following one agent's stream | `Attach` |
| Polling, and what the log says of an agent | `PollDiff`, `PollRuns` |
| Deadlines and failover | `Deadlines`, `DeadlineRuns` |
| Scheduled automations | `Schedule`, `Automations`, `ConfigStore`, `RunHistory` |
| Task templates | `Utf8`, `Interpolation` |
| Timestamps as strings, usage windows | `Timestamps`, `UsageWindow` |
| Usage, from events to the dashboard | `Usage`, `UsageReports`, `Charts`, `UsageAccounts` |
| The published API schemas | `Schemas`, `MergedSchemas` |

How the model is built:

- What several tasks or replicas do at once is a state machine: a datatype for the state,
  an operation for every lock section, statement or call at which the daemon may be
  interleaved (exceptions are named under "Left out"), and results over all sequences of
  operations.
- Code that updates things in place is a class or a method with loops, proved against a
  specification function; the results are then proved about that function.
- Clocks, database faults, what other replicas do, what an agent sends and what a backend
  lists are parameters or operations, so results hold for all of them.
- Integers are unbounded except where the source's width shows (`Deadlines.AsSigned`);
  costs and delays are reals.

Some promises hold only under a condition.  For each of these the model keeps the code as
it is, exhibits a failing run or input, and proves the exact condition: the guard of the
step that can fail (`SingleWriter.StepExact` with `TwoWritersIff`,
`Automations.StaysRisingIff`, `PollRuns.StepExact`, `DeadlineRuns.StepExact`), or a
condition on the inputs (`SingleWriterIff`, `DefaultHeartbeatIff`, `ReplayCatchesUpIff`,
`ReceivedAllIff`, `NothingLostIff`, `MixedOrder`, `WindowSelectsIff`,
`DeadlineBeforeStartIff`, `ResponsesKeptIff`, `PatchCompleteIff`).

What the code does and its comments do not say:

- `release` deletes the lease row, so an epoch does not fence across a release
  (`ReleaseResetsTheFence`).
- An ended task that releases its lease late, or a heartbeat that drops a lease after its
  renewal failed, can take the lease away from an attempt that has claimed it since
  (`LateForgetBreaks`, `LateDeleteBreaks`, `LateRegisterBreaks`, `StaleDropBreaks`).
- A heartbeat takes a database error for a lost lease and drops it under a running task,
  which goes on (`FaultyRenewalBreaks`).
- A default heartbeat interval never goes below one second, so it does not fit a shorter
  TTL (`DefaultHeartbeatIff`).
- A poll that finishes after an agent was removed reports its departure again
  (`GoneTwice`).
- A timeout near the top of its 64-bit range wraps to a negative one, and its deadline has
  passed when the agent starts (`DeadlineBeforeStartIff`).
- A deadline that retention prunes is forgotten by the next replica (`PrunedDeadline`).
- A deleted and recreated automation can fire a tick again (`RecreatedFiresTwice`).
- A replica that crashes between claiming a tick and spawning loses that tick for everybody
  (`CrashLosesTheWin`).
- A finishing frame read on a connection that then breaks is not recognised on later ones
  (`FinishIsMissed`).
- A line cut short by the end of a connection counts as seen, and its event is lost
  (`CutLineIsLost`).
- After a prune that lowers a stream's high-water its seqs are given again, and a
  subscriber past them misses the new events (`ReusedSeqIsMissed`).
- A usage window whose end falls in year 10000 selects nothing
  (`YearTenThousandSelectsNothing`).
- A shared schema that refers to a renamed one is published with the request's shape, also
  for responses (`ResponseMeaningCanChange`).

## Model

| member | source | states |
|---|---|---|
| `Leases.LeaseLasts` | crates/core/src/leased_ownership.rs:127-199 | a lease granted to a replica is still there, at least until the granted expiry, as long as the replica does not release it |
| `Leases.LeaseExclusion` | crates/core/src/leased_ownership.rs:127-199 | over every run of any number of replicas on one clock, nobody else acquires a stream between a replica's acquire or renewal and the earlier of its release and its expiry |
| `Leases.StandingIsTheRow` | crates/core/src/leased_ownership.rs:127-199 | over every run, the latest successful acquire or renewal of a key that its replica has not released since is the key's row: that replica owns it, and it expires exactly at that statement's clock plus the replica's TTL |
| `Leases.RowStands` | crates/core/src/leased_ownership.rs:127-199 | from an empty table every row is such a standing grant |
| `Leases.ClaimSucceedsIff` | crates/core/src/leased_ownership.rs:127-163 | a claim succeeds if and only if no other replica's grant stands that has yet to run out: exclusion, and failover as soon as the last grant has run out |
| `Leases.LeaseStaysRenewable` | crates/core/src/leased_ownership.rs:127-186 | a lease renews at the epoch it was acquired with until its replica releases it or another's claim succeeds, also when its replica claims it again |
| `Leases.EpochsOnlyGrow` | crates/core/src/leased_ownership.rs:127-163 | without a release, the epoch of a row never goes down |
| `Leases.TakeoverFences` | crates/core/src/leased_ownership.rs:127-186 | each takeover without a release in between raises the epoch strictly, and every later renewal of the displaced lease fails |
| `Leases.ReleaseResetsTheFence` | crates/core/src/leased_ownership.rs:188-199 | a release deletes the row, the epoch starts again at 1, and a lease that was displaced at epoch 1 renews again: the concrete trace |
| `Leases.DisplacedRenewsOnlyAfter` | crates/core/src/leased_ownership.rs:127-199 | a displaced lease renews again only after the key was released and then claimed anew by its old owner |
| `LeasedOwnership.Ownership.TryAcquire` | crates/core/src/leased_ownership.rs:127-163 | a claim succeeds exactly on a free, expired or own row; the row it leaves expires a TTL from now, at epoch 1, the same epoch or the next one; the mirror lists that epoch and no other row changes |
| `LeasedOwnership.Ownership.Renew` | crates/core/src/leased_ownership.rs:165-186 | a renewal succeeds exactly when owner and epoch still match, extends that row and no other |
| `LeasedOwnership.Ownership.Release` | crates/core/src/leased_ownership.rs:188-199 | deletes the replica's own row, never a peer's, and forgets it in the mirror |
| `LeasedOwnership.Ownership.Heartbeat` | crates/core/src/leased_ownership.rs:67-86 | every mirrored lease whose row is still the replica's at that epoch, and whose renewal meets no database fault, is extended to a TTL from now; every other is dropped from the mirror, and its row left as it is |
| `LeasedOwnership.PassIsItsSteps` | crates/core/src/leased_ownership.rs:67-86 | an uninterrupted pass over the snapshot, key by key in any order and with any database failures, is a run of the cluster machine's snapshot, renewal and drop steps |
| `LeasedOwnership.PassIsTheHeartbeat` | crates/core/src/leased_ownership.rs:67-86 | and that run ends in the table and mirror the heartbeat method leaves |
| `SingleWriter.StepExact` | crates/core/src/fleet.rs:1413-1469 | every step of every replica (check, claim statement, mirror, register, remove, forget, delete, lifecycle claim, heartbeat snapshot, renewal that succeeds, finds the lease gone or meets a database error, drop, crash, time) keeps every writer mirrored, registered and backed by its own row, exactly when it passes its guard: a delete finds no attempt relying on the row, a forget or drop none relying on the mirror or one that is about to list the lease again |
| `SingleWriter.GuardedIff` | crates/core/src/fleet.rs:1413-1469 | a run keeps every writer backed throughout if and only if every step passes its guard |
| `SingleWriter.SingleWriterSafety` | crates/core/src/fleet.rs:1413-1469 | with renewals on time, every guarded run, with attach attempts overlapping in any way, interrupted heartbeats and database errors, has at most one writer per agent in the cluster, and it owns an unexpired row |
| `LeaseNecessity.TwoWritersIff` | crates/core/src/fleet.rs:1413-1469 | in a cluster of two or more, after any guarded run and one more step, guarded steps with heartbeats on time can lead to two tasks driving the same agent if and only if that step did not pass its guard |
| `LeaseDiscipline.AtomicStepsAreSafe` | crates/core/src/fleet.rs:1413-1469 | with claim-and-register, remove-and-release and each heartbeat carried through before another is begun (time passes and replicas crash at any point), and no database error on renewing a lease that is relied on, there is one writer, however many attempts passed the first check together |
| `LeaseDiscipline.SeparateAttemptsAreSafe` | crates/core/src/fleet.rs:1413-1469 | attempts that do not overlap need only the heartbeat's guard |
| `LeaseHazards.LateForgetBreaks` | crates/core/src/fleet.rs:1465-1467 | the run in which an ended task forgets the lease under a task that attached since, and a peer takes over |
| `LeaseHazards.LateDeleteBreaks` | crates/core/src/leased_ownership.rs:188-199 | the run in which an ended task deletes the row under a task that attached since |
| `LeaseHazards.LateRegisterBreaks` | crates/core/src/fleet.rs:1422-1433 | the run in which a claim registered after that delete runs without a row |
| `LeaseHazards.StaleDropBreaks` | crates/core/src/leased_ownership.rs:67-86 | the run in which a heartbeat, its renewal having failed, drops a lease that was claimed anew meanwhile, and a peer takes over |
| `LeaseHazards.FaultyRenewalBreaks` | crates/core/src/leased_ownership.rs:67-86 | the run in which one database error at a renewal makes the heartbeat drop the lease of a running task, and a peer takes over |
| `LeaseHazards.EachGuardIsNeeded` | crates/core/src/fleet.rs:1413-1469 | for any flags, each of the three guards alone, left out, admits two writers |
| `LeaseHazards.SlowHeartbeatBreaks` | crates/core/src/leased_ownership.rs:67-86 | the run in which an interval above the TTL lets a peer take over a running writer's stream |
| `LeaseHazards.SingleWriterIff` | crates/core/src/fleet.rs:1413-1469 | in a cluster of two or more, guarded runs are safe if and only if no replica's interval exceeds its TTL |
| `LeaseHazards.HeartbeatIs` | crates/daemon/src/main.rs:303-311 | the interval is the explicit number of milliseconds, at least one, or else a third of the TTL, at least one second |
| `LeaseHazards.HeartbeatFitsIff` | crates/daemon/src/main.rs:303-311 | an explicit interval is at most the TTL exactly when its milliseconds are, 0 counting as 1; the default one exactly when the TTL is at least one second |
| `LeaseHazards.DefaultHeartbeatIff` | crates/daemon/src/main.rs:303-311 | with the default interval every guarded run is safe if and only if every TTL is at least one second |
| `LeaseHandoff.EndHandsOn` | crates/core/src/fleet.rs:1452-1469 | a driver that ends leaves its stream free for every replica's claim, is gone from registry, mirror and task list, and touches nothing else |
| `LeaseHandoff.LoserLeavesAll` | crates/core/src/fleet.rs:1425-1433 | an attempt that finds the stream driven already leaves row, mirror and registry to its driver |
| `LeaseHandoff.RefusedLeavesAll` | crates/core/src/fleet.rs:1419-1424 | an attempt whose claim is refused leaves everything as it was |
| `LeaseHandoff.CrashKeepsLeases` | crates/core/src/leased_ownership.rs:127-163 | a crash leaves the rows: another replica's claim succeeds exactly when they run out; of the replica's own tasks, mirror and registry nothing is left, of the others' everything |
| `LeaseHandoff.LifecycleIsRenewed` | crates/core/src/leased_ownership.rs:67-163 | a workspace's own lease enters the mirror with its claim, and the next heartbeat finds and extends it |
| `LeaseHandoff.LifecycleRefused` | crates/core/src/leased_ownership.rs:127-163 | while another replica has the workspace, claiming it changes nothing |
| `LeaseHandoff.LostIsDropped` | crates/core/src/leased_ownership.rs:67-86 | a renewal that fails, and the drop that follows, take the lease out of the mirror and leave the row alone |
| `EmitterProtocol.StepKeepsBounds` | crates/core/src/fleet.rs:371-388 | the retry loop's arithmetic at every lock section and store call: conflicts, seqs tried, outcome |
| `EmitterProtocol.StepKeepsLedger` | crates/core/src/fleet.rs:349-422 | log and emit calls agree after every step on what is persisted, by whom and at which seq |
| `EmitterProtocol.EmitSafety` | crates/core/src/fleet.rs:349-422 | in every interleaving with faults, failed reads and pruning: at most nine attempts a loop, each item appended at most once, a publication says truly whether and at which seq its event is durable, and at most eight conflicts without another error means persisted |
| `EmitterProtocol.OwnEventFate` | crates/core/src/fleet.rs:349-422 | a finished emit's own event was stored exactly once if its append loop met at most eight conflicts and no other error, and otherwise never |
| `EmitterRuns.SeqsConserved` | crates/core/src/fleet.rs:295-422 | every seq handed out was appended, failed, given up to a conflict, or is about to be tried; the counts add up after every step |
| `EmitterRuns.CountersTally` | crates/core/src/fleet.rs:349-422 | the counters of appends and failures count the events stored and those given up, over every run |
| `EmitterRuns.EachPublishedOnce` | crates/core/src/fleet.rs:349-422 | over every run, whatever the store does, a finished emit published its own event exactly once, and its gap marker exactly once if it has one |
| `EmitterRuns.RowsOnlyGrow` | crates/core/src/sqlite_store.rs:82-101 | no append overwrites a row |
| `EmitterRuns.OneEventPerSeq` | crates/core/src/sqlite_store.rs:21-32 | without pruning, no two appends of a run share a stream and a seq, however many replicas race |
| `EmitterRuns.ConsecutiveHandouts` | crates/core/src/fleet.rs:312-342 | on a stream with one writer, whatever replicas do on other streams, for any interleaving between lock sections, any stale high-water, and failed reads and pruning once its first seq is out, the seqs handed out for a stream that stood at h are h+1, h+2, ... each once, and no conflict is ever reported on it |
| `LostEvents.GapsAccounted` | crates/core/src/fleet.rs:349-422 | on such a stream, with arbitrary append failures and pruning: seqs handed out equal appended plus given up, and each was appended, or is named by a gap marker that was, or its emit's marker failed too |
| `LostEvents.GapsShow` | crates/core/src/fleet.rs:349-422 | the same read off the rows, for a stream that is not pruned |
| `SerialEmitter.RetriesClimb` | crates/core/src/fleet.rs:371-394 | every retry of a one-task emitter gets a strictly higher seq than the last, whatever the other replicas append |
| `SerialEmitter.ConflictReseeds` | crates/core/src/fleet.rs:371-394 | after a conflict a task that is not interrupted forgets the counter and tries the successor of the log's high-water |
| `Emitter.EventEmitter.NextSeq` | crates/core/src/fleet.rs:312-342 | the counter plus one, or the high-water plus one when there is no counter; the counter becomes what was handed out |
| `Emitter.EventEmitter.Resequence` | crates/core/src/fleet.rs:380-394 | after a conflict the next seq lies past every durable event of the stream, whatever the counter said, unless the high-water read fails |
| `Emitter.MetAt` | crates/core/src/fleet.rs:371-388 | attempt by attempt: a later one follows a conflict of the one before, tries the successor of the high-water that conflict left behind, and finds that table with the rivals' rows behind it |
| `Emitter.GrewAdds` | crates/core/src/sqlite_store.rs:82-101 | between two attempts only the rivals' own events come in, at the end, and the slot of each is occupied from then on |
| `Emitter.ConflictIsARival` | crates/core/src/fleet.rs:371-388 | a later attempt that could read the high-water conflicts only because a rival took its very seq just before it |
| `Emitter.EventEmitter.AppendWithSeqRetry` | crates/core/src/fleet.rs:371-388 | at most nine attempts, at climbing seqs unless a high-water read fails; it succeeds exactly when the last attempt is let through and finds its slot free, and then the event is the newest row, at its final seq; otherwise the store refused or nine seqs in a row were taken; the counter is left at the last seq tried |
| `Emitter.EventEmitter.Record` | crates/core/src/fleet.rs:295-364 | the next seq, the append loop and the counter its outcome moves, by one |
| `Emitter.EventEmitter.Emit` | crates/core/src/fleet.rs:349-422 | one publication exactly when the own append loop persisted the event, that is unless it met a store fault or nine conflicts; otherwise a second one, the gap marker naming the lost seq, sequenced right behind it; each of the two counters moves by exactly the loops that ended its way; undisturbed, a call publishes the one event |
| `EventLog.SameStreamIff` | crates/types/src/event.rs:140-153 | an agent's stream goes by its id; two events share a stream exactly when they have the same agent or, without one, the same repo, as long as no agent id reads like a stream without one |
| `EventLog.ReplayExact` | crates/core/src/sqlite_store.rs:103-135 | a replay is exactly the stream's rows from a seq on, each once, in strictly ascending seq |
| `EventLog.AscendingUnique` | crates/core/src/sqlite_store.rs:103-135 | two ascending lists of the same events are the same list |
| `EventLog.HighWaterIsMax` | crates/core/src/sqlite_store.rs:192-203 | the high-water is the largest seq of the surviving rows, 0 when there are none |
| `EventLog.PruneExact` | crates/core/src/sqlite_store.rs:225-236 | prune keeps exactly the rows not stamped before the bound |
| `EventLog.PruneKeepsTable` | crates/core/src/sqlite_store.rs:225-236 | pruning keeps ordinals ascending and slots unique |
| `EventLog.PruneLowersHighWater` | crates/core/src/sqlite_store.rs:192-236 | prune never raises the high-water, and lowers it exactly when no event at the high-water survives |
| `EventLog.SqliteStore.Append` | crates/core/src/sqlite_store.rs:82-101 | a taken slot is reported as a conflict and changes nothing; otherwise the row goes in last, under a new ordinal |
| `EventLog.SqliteStore.Prune` | crates/core/src/sqlite_store.rs:225-236 | the new table and the number of rows removed |
| `Doorbell.NoColonNoSplit` | crates/core/src/distributed_bus.rs:198-204 | a payload cannot be split exactly when it has no colon |
| `Doorbell.DecimalReads` | crates/core/src/distributed_bus.rs:132-150 | the decimals of a seq read back as the seq, without a zero in front |
| `Doorbell.PayloadRoundTrip` | crates/core/src/distributed_bus.rs:132-150 | splitting a payload at its last colon gives back every key, colons included, and a text that reads as the seq |
| `Doorbell.Subscribe` | crates/core/src/distributed_bus.rs:152-223 | the loop delivers, bell by bell, what the durable log has past its high-water |
| `Doorbell.DeliveryIsOrdered` | crates/core/src/distributed_bus.rs:152-223 | under lost, doubled and reordered bells and failed replays, delivered seqs strictly ascend and every delivered event was durable |
| `Doorbell.ReplayCatchesUpIff` | crates/core/src/distributed_bus.rs:180-215 | a replay brings delivery up to the whole stream if and only if the stream's appends since the last one committed in seq order |
| `Doorbell.LateCommitIsMissed` | crates/core/src/fleet.rs:330-342 | two appends that commit out of order: the earlier seq is never delivered |
| `Doorbell.DeliveryIsComplete` | crates/core/src/distributed_bus.rs:152-223 | over a log that grows in seq order, what has been delivered is at all times the whole stream as of the last successful replay |
| `Doorbell.ReceivedAllIff` | crates/core/src/distributed_bus.rs:152-223 | over any run of bells, with rows pruned at will between replays: every replay leaves the subscriber with all that it found if and only if no replay finds, at or below a seq found before, an event that was not there by then |
| `Doorbell.ReusedSeqIsMissed` | crates/core/src/sqlite_store.rs:192-236 | a prune that empties a stream lets its seqs be given again; a subscriber past them never receives the new events |
| `Doorbell.DrainDoorbell` | crates/core/src/distributed_bus.rs:92-128 | the unfiltered loop, and its projection to every key |
| `Doorbell.DrainProjects` | crates/core/src/distributed_bus.rs:92-223 | the unfiltered stream, projected to one key, is what a subscriber of that key gets |
| `Doorbell.DrainAppends` | crates/core/src/distributed_bus.rs:92-128 | each notification adds at the end, and only events of the stream it names |
| `FleetStream.Follow` | crates/api/src/sse.rs:39-72 | the nested drain loops yield exactly the batches read |
| `FleetStream.BatchSize` | crates/core/src/sqlite_store.rs:137-179 | a read returns all that is left after the cursor, up to 256 entries |
| `FleetStream.FollowIsOneRead` | crates/api/src/sse.rs:39-72 | at every point the output is exactly the log entries with ordinal in (start, cursor], once each and in order, across batch boundaries, failed reads and lost bells |
| `FleetStream.DrainIsComplete` | crates/api/src/sse.rs:39-72 | after a drain that ends on a successful empty read nothing up to the end of the log read is missing |
| `FleetStream.DeliveredInOrder` | crates/api/src/sse.rs:39-72 | also when rows are pruned between reads, what was yielded is in order, once each and within (start, cursor] |
| `FleetStream.SurvivorsAreDelivered` | crates/api/src/sse.rs:39-72 | and an entry that no read is missing has been yielded exactly when the cursor is past it |
| `FleetStream.DrainedToTheEnd` | crates/api/src/sse.rs:39-72 | after a drain that ends on a successful empty read every surviving entry of that read has been yielded |
| `FleetStream.ReadMovesForward` | crates/core/src/sqlite_store.rs:137-179 | a read never moves the cursor back, and yields only entries past it |
| `FleetStream.LateOrdinalIsMissed` | crates/core/src/store.rs:150-165 | an entry committed under an ordinal the cursor has passed is never yielded: the reason ordinals must commit in order |
| `Attach.EventsStandFor` | crates/core/src/fleet.rs:1800-1818 | the events are those of the frames that normalize to one, one for one and in the frames' order |
| `Attach.AttachOnce` | crates/core/src/fleet.rs:1750-1820 | one connection: events of the frames past those seen, in order; frames seen becomes the longest prefix, a line cut short by the end of the stream counted; reported as the agent's end exactly on a shutdown, or at the end of the stream when a finishing frame is among the new ones, and as an error exactly when the stream could not be opened or read |
| `Attach.ReportedIff` | crates/core/src/fleet.rs:1770-1820 | so for any connection and any number of frames seen before it |
| `Attach.CappedIs` | crates/core/src/fleet.rs:193-208 | before jitter, a delay is the lesser of the ceiling and the base times two to the power of the attempt, or of 31 from then on |
| `Attach.CappedDoubles` | crates/core/src/fleet.rs:193-208 | attempt by attempt it starts from the base and doubles until the ceiling |
| `Attach.Jitter` | crates/core/src/fleet.rs:203-206 | the factor is one half plus the hash modulo 1000 in two-thousandths, so from one half up to but not including 1 |
| `Attach.DelayBounds` | crates/core/src/fleet.rs:193-208 | a delay is that times the factor, and between half of it and the ceiling |
| `Attach.AttachLoop` | crates/core/src/fleet.rs:1687-1748 | for any connections, terminates; the events emitted are the normalization of the longest prefix any connection delivered, each frame once and as it was first read; it stops at the first connection that ends it or uses up the retries, and at no earlier one; it returns an error exactly when that one used them up on a stream that could not be opened or read; between connections it sleeps as long as the connections since the last progress say |
| `Attach.IdleIff` | crates/core/src/fleet.rs:1728-1735 | the retries are used up exactly when that many connections in a row left the longest prefix as it was |
| `Attach.FollowedBounds` | crates/core/src/fleet.rs:1687-1748 | at most (frames + 1) x retries + 1 connections, and at most retries x ceiling of sleep between two steps of progress |
| `Attach.NothingLostIff` | crates/core/src/fleet.rs:1764-1795 | over connections that replay the agent's frames and may end in the middle of a line, what was emitted is all that the frames seen stand for if and only if no frame that stands for an event was cut short on the connection that reached it first |
| `Attach.CutLineIsLost` | crates/core/src/fleet.rs:1764-1795 | a frame cut short and then replayed whole: it counts as seen and its event is never emitted |
| `Attach.FinishIsMissed` | crates/core/src/fleet.rs:1770-1820 | once the finishing frames were read on connections that broke, no later end of the stream is taken as the agent's end |
| `Timestamps.RenderSpells` | crates/api/src/dto.rs:91-132 | a rendered instant read off its characters: year, month, day, `T`, hour, minute, second in their places, the shortest fraction of 3, 6 or 9 digits, and `+00:00` |
| `Timestamps.StampSpells` | crates/core/src/automation.rs:38-47 | a fire time likewise: whole seconds, and a `Z` |
| `Timestamps.RenderOrder` | crates/api/src/dto.rs:91-132 | rendered instants of years 0000 to 9999 compare as strings exactly as in time, whatever mixture of 0, 3, 6 and 9 fraction digits |
| `Timestamps.RenderInjective` | crates/api/src/dto.rs:91-132 | two instants spelled alike are the same instant |
| `Timestamps.StampOrder` | crates/core/src/automation.rs:38-47 | whole-second `Z` stamps compare as strings exactly as in time |
| `Timestamps.CliStampIsRendered` | crates/cli/src/usage.rs:78-93 | the CLI's spelling is the store's own spelling of a whole second |
| `Timestamps.MixedOrder` | crates/cli/src/usage.rs:78-93 | a `Z` bound compared with a rendered event is wrong exactly when the event lies within the bound's second |
| `Timestamps.MixedOrderFails` | crates/cli/src/usage.rs:78-93 | an event later in a second sorts before that second's `Z` stamp |
| `UsageWindow.CivilRoundTrip` | crates/api/src/dto.rs:106-132 | civil time and instants are in one-to-one correspondence |
| `UsageWindow.WindowIs` | crates/api/src/dto.rs:106-138 | the window a query asks for, by its two instants: it ends at `until` or now, and starts at `since` or as many days of 24 hours before its end as asked, 7 by default and at least 1; and exactly when it is refused, and why |
| `UsageWindow.WindowSelectsIff` | crates/api/src/dto.rs:106-132 | the strings of a usage window select exactly the events in it by time if and only if both bounds or neither lie after year 9999, or it ends before year 0000 |
| `UsageWindow.YearTenThousandSelectsNothing` | crates/api/src/dto.rs:106-132 | an end carried into year 10000 by its offset selects nothing |
| `UsageWindow.PruneSelects` | crates/core/src/sqlite_store.rs:225-236 | pruning a table at a rendered bound keeps exactly the rows stamped no earlier in time |
| `UsageWindow.DayColumn` | crates/core/src/store.rs:67-69 | slicing ten characters off two rendered timestamps agrees exactly when they fall on the same day |
| `Schedule.SpellOrder` | crates/core/src/automation.rs:38-47 | fire times compare as strings exactly as in time |
| `Schedule.DueIsNewestTick` | crates/core/src/automation.rs:88-95 | a tick is due exactly when it is the newest one before now and lies after the anchor; nothing is due exactly when there is none in between |
| `Schedule.DueFireIff` | crates/core/src/automation.rs:88-95 | the same with every bound as an instant |
| `Automations.DueIff` | crates/core/src/automation.rs:358-377 | an automation owes a tick exactly when it is enabled and on a schedule, its anchor (when it last fired, or else when it was created) parses, and the tick is the newest one after the anchor and before now |
| `Automations.UpsertedIs` | crates/core/src/config_store.rs:239-254 | an edit replaces every column but the fire time, which stays, or is empty for an automation that was not there |
| `Automations.ClaimReaches` | crates/core/src/config_store.rs:270-282 | after a claim, won or lost, the stored fire time is at least the one claimed |
| `Automations.WinIsLater` | crates/core/src/config_store.rs:270-282 | a winning fire time is after every fire time reached before |
| `Automations.StepKeepsReached` | crates/core/src/config_store.rs:239-282 | no list, claim, spawn, crash or edit moves a fire time back |
| `Automations.StepKeepsRising` | crates/core/src/config_store.rs:239-282 | every step, deletes included, keeps winning fire times rising unless it creates anew an id that has won |
| `Automations.StepKeepsOneActor` | crates/core/src/automation.rs:349-404 | after every step each win belongs to one replica and is acted on at most once |
| `Automations.FiresOnce` | crates/core/src/automation.rs:349-404 | for any interleaving of any number of replicas with stale lists, crashes, edits and deletes: winning ticks of an id that is not created anew after a win strictly rise, none is won twice, and none is acted on twice |
| `Automations.UndeletedFiresOnce` | crates/core/src/automation.rs:349-404 | in particular, from a fresh start, for an automation that is never deleted, whoever edits it |
| `Automations.WinsWereOwed` | crates/core/src/automation.rs:349-388 | over every run, each win goes back to some replica's reading of the table, in which the automation was enabled and on a schedule, with an anchor that parses and this tick the newest one due |
| `Automations.WinnerActs` | crates/core/src/automation.rs:379-403 | a claim that wins is acted on by the winner's next step, whatever everyone else does meanwhile |
| `Automations.CrashLosesTheWin` | crates/core/src/automation.rs:381-403 | the tick of a replica that crashes between its claim and its spawn is acted on by nobody, however the run goes on |
| `Automations.DeletedIsSilent` | crates/core/src/config_store.rs:256-282 | a deleted automation wins nothing, not even for a replica that listed it before, until it is created anew |
| `Automations.PassReaches` | crates/core/src/automation.rs:349-404 | once a replica tried the tick its list said was due, the stored fire time is at least that tick, for good |
| `Automations.PassCovers` | crates/core/src/automation.rs:349-404 | a pass of an enabled automation leaves the fire time at or after every tick between the anchor listed and its now, whatever others do in between |
| `Automations.RecreatedFiresTwice` | crates/core/src/config_store.rs:239-268 | creating an id anew after it has won always allows one of its ticks to be won again |
| `Automations.StaysRisingIff` | crates/core/src/config_store.rs:239-282 | after a step no tick can be won twice, however the run goes on, if and only if the step does not create anew an id that has won |
| `Automations.GuardedRunHolds` | crates/core/src/config_store.rs:239-282 | every run from a fresh start in which nothing was created anew satisfies what that result requires |
| `ConfigStore.Store.ListAutomations` | crates/core/src/config_store.rs:230-237 | every automation with its row, in the order of the ids |
| `ConfigStore.Store.ClaimAutomationFire` | crates/core/src/config_store.rs:270-282 | compare and set: wins exactly when the row is there with no fire time or an earlier one |
| `ConfigStore.Store.UpsertAutomation` | crates/core/src/config_store.rs:239-254 | every column of the new row but the fire time, which is kept, or empty for a new automation; no other row changes |
| `ConfigStore.Store.DeleteAutomation` | crates/core/src/config_store.rs:256-268 | removes the automation and all of its runs, and none of anybody else's |
| `ConfigStore.Store.SaveRun` | crates/core/src/automation.rs:450-458 | the run is recorded and the history trimmed, unless the database refuses: then nothing changes |
| `ConfigStore.Store.FireOne` | crates/core/src/automation.rs:377-403 | a claim and, only if it wins, one recorded run |
| `ConfigStore.Store.TickAutomations` | crates/core/src/automation.rs:349-404 | one pass: it wins, in the order of the ids, exactly the ticks that automations owe, that are later than their fire times and whose claim the database does not refuse; a winner's fire time becomes its tick, every other row stays as it was; a run is recorded for each win unless the database refuses that, and nothing changes in any other automation's history; a pass whose list fails does nothing |
| `ConfigStore.PassIs` | crates/core/src/automation.rs:349-404 | so for every listing of the table |
| `ConfigStore.PassLeavesAlone` | crates/core/src/automation.rs:358-373 | an automation that is disabled, on a webhook, or anchored at a text that does not parse wins nothing and keeps its row |
| `ConfigStore.SavedElsewhere` | crates/core/src/automation.rs:399-403 | an automation that won nothing has no run recorded and none removed |
| `ConfigStore.SavedHere` | crates/core/src/automation.rs:399-403 | a winner has one run recorded, of the tick it won and what came of acting on it, or loses it to a database error |
| `ConfigStore.PassSettlesAll` | crates/core/src/automation.rs:349-404 | after a pass each automation has won the tick it owed, exactly if that could be claimed, and is otherwise as it was |
| `RunHistory.TopIsUnique` | crates/core/src/config_store.rs:298-310 | however ties are broken, the kept fire times are the same |
| `RunHistory.TopStreams` | crates/core/src/config_store.rs:284-312 | the newest of the kept ones and a new one are the newest of everything recorded |
| `RunHistory.Oldest` | crates/core/src/config_store.rs:298-310 | the row of an automation that fired first |
| `RunHistory.RecordRun` | crates/core/src/config_store.rs:284-312 | insert and trim: the newest 200 of the automation's fire times and the new one, every row left one of those as it was; no other automation's row changes |
| `RunHistory.HistoryIsTop` | crates/core/src/config_store.rs:284-312 | after any runs of any automations, in any order and with ties, the table keeps for each automation exactly the 200 newest fire times ever recorded for it |
| `PollDiff.PickedIff` | crates/core/src/fleet.rs:1278-1285 | an agent is to be attached exactly when some record of it is spawning, running or idle and nobody follows it here |
| `PollDiff.DiffListed` | crates/core/src/fleet.rs:1213-1287 | the events for listed agents, in the records' order; the new snapshot; and the agents to attach, one for each such record and in the records' order |
| `PollDiff.DiffGone` | crates/core/src/fleet.rs:1289-1298 | one more event for each agent no longer listed, behind all others and in any order of the prior ids |
| `PollDiff.Reconcile` | crates/core/src/fleet.rs:1206-1310 | what a poll emits about each agent, record by record and then for agents no longer listed; over a registry that lists an id once, exactly the difference between the served and the listed agents, under the lease and the attached set; and it starts to follow exactly the listed agents that are live and not followed yet, in the registry's order |
| `PollDiff.PollIsAPatch` | crates/core/src/fleet.rs:1248-1298 | the owner's events, applied one after the other to the served agents in whatever order they came, each fit and give exactly the new snapshot's agents, but for newcomers followed already, with the status of every agent served before |
| `PollDiff.PatchCompleteIff` | crates/core/src/fleet.rs:1248-1298 | a reader of the events knows of exactly the agents served if and only if no newcomer was followed before the poll saw it; those are the ones it misses, and it keeps none that is gone |
| `PollDiff.PeersAreSilent` | crates/core/src/fleet.rs:1155-1170 | a replica without the lifecycle lease emits nothing |
| `PollRuns.StatusesChain` | crates/core/src/fleet.rs:1258-1275 | in a story that holds together each status change starts where the one before ended |
| `PollRuns.StepExact` | crates/core/src/fleet.rs:1023-1345 | every spawn, removal, poll, failed poll and half of a poll keeps every agent's story whole exactly when, for a poll that finishes, no id used up is listed and what it read is current or stale in a way that does no harm |
| `PollRuns.StoriesHoldIff` | crates/core/src/fleet.rs:1023-1345 | throughout a run with polls interrupted anywhere the stories hold together, fit the snapshot and tell each departure once, if and only if no poll finishes over a harmfully stale read |
| `PollRuns.RunFits` | crates/core/src/fleet.rs:1023-1345 | in particular over any run of atomic polls, failed polls, spawns and removals |
| `PollRuns.SpawnIsToldOnce` | crates/core/src/fleet.rs:1240-1257 | an agent followed from its spawn on is never reported as discovered while it is followed |
| `PollRuns.FollowedIsToldOnce` | crates/core/src/fleet.rs:1240-1257 | one that a poll starts to follow is not reported as discovered again, not even by a poll that began before that one finished |
| `PollRuns.UnfollowedIsDiscovered` | crates/core/src/fleet.rs:1240-1257 | an agent nobody follows is reported as discovered by the poll that newly lists it |
| `PollRuns.RemovedStaysAway` | crates/core/src/fleet.rs:1023-1064 | a removed agent is not served again, unless a poll was under way |
| `PollRuns.GoneTwice` | crates/core/src/fleet.rs:1023-1064 | a removal between a poll's reads and its write always leads to a second AgentGone |
| `PollRuns.GoneTwiceHappens` | crates/core/src/fleet.rs:1023-1064 | a run from the start in which one departure is reported twice |
| `Schemas.ReferencesAre` | crates/api/src/openapi.rs:776-801 | a reference is a `$ref` whose text is `#/components/schemas/` and the name |
| `Schemas.RenamedTarget` | crates/api/src/openapi.rs:776-801 | a renamed reference points to the published name of what it pointed to |
| `Schemas.RenamedMeansSame` | crates/api/src/openapi.rs:776-801 | a renamed schema expands, at every depth, as the original does, if the names it uses do |
| `Schemas.SameMeaningBelow` | crates/api/src/openapi.rs:776-801 | and conversely: equal expansions mean equal expansions of every name used, one level down |
| `Schemas.RenamedRefs` | crates/api/src/openapi.rs:776-801 | the names a renamed schema refers to are the published names |
| `MergedSchemas.MergeSchemas` | crates/api/src/openapi.rs:746-773 | renamed, to their name and `Request`, are exactly the types that both maps have under different schemas; and what every key of the merged map holds, in any insertion order |
| `MergedSchemas.RequestsKeepTheirMeaning` | crates/api/src/openapi.rs:746-801 | a request type, under the name it is published as, expands at every depth as it did on its own |
| `MergedSchemas.RequestEntry` | crates/api/src/openapi.rs:915-930 | the name `operation` picks for a request body is the key of that type's renamed schema |
| `MergedSchemas.MergedIsClosed` | crates/api/src/openapi.rs:746-801 | every reference in the merged map resolves |
| `MergedSchemas.ResponsesKeptIff` | crates/api/src/openapi.rs:731-773 | every response type keeps its expansion if and only if every renamed type that an unrenamed shared type refers to expands alike read and written |
| `MergedSchemas.ResponsesUntouchedIff` | crates/api/src/openapi.rs:746-801 | response schemas are published word for word if and only if no unrenamed shared type refers to a renamed one |
| `MergedSchemas.ResponseMeaningCanChange` | crates/api/src/openapi.rs:746-801 | definitions for which every merge changes what a response type means |
| `Usage.AggregateUsage` | crates/core/src/store.rs:74-125 | the row-by-row fold |
| `Usage.SumsCount` | crates/core/src/store.rs:84-122 | what the sums count: the cost and turns of finished agents, one for each agent done, failed, killed or crashed, one for each timeout, over dated events only |
| `Usage.AggregationConserves` | crates/core/src/store.rs:74-125 | the rows add up to the direct sum over the events |
| `Usage.AggregationExact` | crates/core/src/store.rs:74-125 | each row holds exactly its workspace's and day's share |
| `Usage.AggregationAscends` | crates/core/src/store.rs:74-125 | one row per workspace and day, in order |
| `UsageAccounts.RowIff` | crates/core/src/store.rs:74-125 | the rows, exactly: one for each workspace and day with an event that counts (a finish, a timeout, or a change to done, failed, killed or crashed), holding what that workspace's events of that day come to |
| `UsageAccounts.DayIsTheDate` | crates/core/src/store.rs:67-69 | the day of an event is its date in UTC, read off the characters |
| `Usage.AggregationIgnoresOrder` | crates/core/src/store.rs:74-125 | the rows do not depend on the order of the events |
| `Usage.WindowKeeps` | crates/core/src/store.rs:346-351 | a window keeps each event it selects as often as it is there, and no other |
| `Usage.WindowsAdd` | crates/core/src/store.rs:346-351 | the sums of two adjacent windows add up to the sum of the joined one |
| `UsageReports.UsageReport` | crates/api/src/dto.rs:151-193 | collect by workspace, then sort each series |
| `UsageReports.ReportedIsFiled` | crates/api/src/dto.rs:151-193 | pushing everything and sorting at the end is filing in order all along |
| `UsageReports.ReportConserves` | crates/api/src/dto.rs:151-193 | the groups add up to the rows |
| `UsageReports.ReportSound` | crates/api/src/dto.rs:151-193 | each group's total is the sum of its series, and each series goes strictly up by day |
| `UsageAccounts.ReportIs` | crates/api/src/dto.rs:142-193 | the groups are the workspaces with a row, in order of their names, and each one's series holds its rows and no others |
| `UsageReports.ReportIgnoresOrder` | crates/api/src/dto.rs:142-193 | the report does not depend on the order of the rows |
| `UsageReports.Total` | crates/cli/src/usage.rs:208-225 | the CLI's total is the sum of the groups |
| `Charts.FleetSeries` | crates/dashboard/src/charts.rs:131-147 | the points strictly ascend by day, one for each day with a bucket, hold day by day the measure over all workspaces, and add up to it |
| `Charts.UsageConserved` | crates/dashboard/src/charts.rs:131-147 | over the events of any window the rows, the report, the CLI's total and every fleet series add up to the direct sum |
| `UsageAccounts.SeriesCounts` | crates/dashboard/src/charts.rs:85-147 | each point of a fleet series is what its measure counts among all workspaces' events of that day: cost and turns of finished runs, agents done, killed, failed or crashed, runs timed out; and so in all |
| `Deadlines.DeadlineIsNewest` | crates/core/src/deadline.rs:61-66 | the deadline read back is the newest one set, none exactly when none was set |
| `Deadlines.ExpiredIff` | crates/core/src/deadline.rs:28-42 | selected are exactly the spawning, running and idle agents whose deadline is known, parses and has come; never one that is done, failed, killed or crashed |
| `Deadlines.ExpiredSelects` | crates/core/src/deadline.rs:28-42 | one for each such agent, in the agents' order |
| `Deadlines.DeadlineIsStartPlusTimeout` | crates/core/src/deadline.rs:47-54 | for every 64-bit timeout: the start plus the timeout up to the bound of a duration, none beyond it, and for those that wrap to negative ones the start minus what they are short of 2^64; in either case if that lies in the calendar |
| `Deadlines.DeadlineBeforeStartIff` | crates/core/src/deadline.rs:47-54 | a deadline precedes its agent's start exactly for timeouts that wrap to negative ones |
| `Deadlines.EveryKillExplained` | crates/core/src/fleet.rs:1389-1407 | each kill attempt has its own timeout event just before it |
| `Deadlines.Enforcer.EnforceDeadlines` | crates/core/src/fleet.rs:1353-1408 | the whole pass: cache filled from the log, what is emitted and killed in which order, cache after the kills |
| `Deadlines.FilledIs` | crates/core/src/fleet.rs:1363-1385 | what filling adds: the newest logged deadline of each live agent that is not cached and whose stream can be read; what is cached stays |
| `Deadlines.DroppedIff` | crates/core/src/fleet.rs:1397-1406 | what is forgotten: the agents that expired and whose kill went through, and no other |
| `Deadlines.FilledFromLog` | crates/core/src/fleet.rs:1363-1385 | after filling, the cache says of every live agent what the log says |
| `Deadlines.SameKills` | crates/core/src/fleet.rs:1353-1408 | whatever two replicas had cached, a pass over the same agents, log and time acts on the same expiries |
| `Deadlines.ActsAgainIff` | crates/core/src/fleet.rs:1402-1406 | an expired agent is acted on again exactly when it still looks live |
| `DeadlineRuns.AgreeIff` | crates/core/src/fleet.rs:1353-1408 | every replica would kill what a newly started one would, for any agents and at any time, if and only if each cached deadline comes to what the log says |
| `DeadlineRuns.AgreeingReplicasActAlike` | crates/core/src/fleet.rs:1353-1408 | then any two replicas would kill the same agents |
| `DeadlineRuns.PassCaches` | crates/core/src/fleet.rs:1353-1408 | what a pass leaves cached: the deadlines known before, and those of live agents that could be read back, but for the agents that were due and killed |
| `DeadlineRuns.RestartedFromLog` | crates/core/src/fleet.rs:1353-1385 | a replica that restarts acts on what the log says and nothing else |
| `DeadlineRuns.StepExact` | crates/core/src/fleet.rs:864-877 | a step keeps that exactly when a spawn's deadline that can come is persisted, and a prune leaves a stream's deadline as it was or nobody has it cached |
| `DeadlineRuns.LostDeadline` | crates/core/src/fleet.rs:864-877 | a deadline that was not persisted: one replica kills, the other never does |
| `DeadlineRuns.PrunedDeadline` | crates/core/src/fleet.rs:1363-1383 | an agent that outlives the log's retention: once its deadline is pruned, a replica that has it cached kills and a new one never does |
| `DeadlineRuns.FailoverInvisibleIff` | crates/core/src/fleet.rs:1353-1408 | throughout a run any replica kills the same agents, whenever another takes over, if and only if every step passes that guard |
| `Utf8.CutAtBoundary` | crates/core/src/automation.rs:159-170 | cutting valid UTF-8 at a character boundary leaves two valid strings |
| `Utf8.BoundaryNear` | crates/core/src/automation.rs:163-166 | a boundary is at most three bytes back from anywhere in valid UTF-8 |
| `Utf8.TruncatedIsValid` | crates/core/src/automation.rs:159-170 | a value of up to 4096 bytes is unchanged; a longer one is cut between 4093 and 4096 bytes, at the last character boundary, and marked; the result is valid UTF-8 of at most 4111 bytes |
| `Utf8.MarkReads` | crates/core/src/automation.rs:169 | the mark, character by character |
| `Utf8.Truncate` | crates/core/src/automation.rs:159-170 | the cut is at the last boundary up to the limit, found in at most three steps |
| `Interpolation.SplitJoins` | crates/core/src/automation.rs:139-141 | the segments of a path, joined by dots, are the path |
| `Interpolation.ResolvedMember` | crates/core/src/automation.rs:137-156 | a path of one segment names a member of the payload: not there or null is an error naming the path, a text of up to 4096 bytes comes bare, any other value as it prints |
| `Interpolation.ResolvedInto` | crates/core/src/automation.rs:137-156 | a longer path comes to what its rest comes to in the member its first segment names; an error names the whole path |
| `Interpolation.ResolvedNowhere` | crates/core/src/automation.rs:133-146 | a path into anything but an object is absent |
| `Interpolation.Lookup` | crates/core/src/automation.rs:137-156 | absent, null, bare string or printed value, truncated |
| `Interpolation.ParseRoundTrip` | crates/core/src/automation.rs:111-130 | a template's pieces spell the template |
| `Interpolation.Interpolate` | crates/core/src/automation.rs:111-130 | one pass: the result is the template's own pieces with each slot filled once, whatever the payload contains |
| `Interpolation.PlainTemplate` | crates/core/src/automation.rs:117-130 | a template without an opening is its own result |
| `Interpolation.UnclosedTemplate` | crates/core/src/automation.rs:117-124 | an opening that is never closed stands as it was written, with all that follows |
| `Interpolation.SlotTemplate` | crates/core/src/automation.rs:117-128 | the text before the first opening stays, what stands between it and the next closing is looked up trimmed, and the rest is a template of its own |
| `Interpolation.OutputIsBounded` | crates/core/src/automation.rs:101-170 | output is at most the template's length plus 4111 bytes a placeholder |
| `Interpolation.OutputIsValid` | crates/core/src/automation.rs:111-170 | output is valid UTF-8 whenever the template and the payload's texts are |
| `Interpolation.FailsIff` | crates/core/src/automation.rs:108-130 | it fails with exactly the error of the first placeholder whose path is absent or null |

## Left out

- The HTTP handlers, the MCP adapter, the command line, the dashboard's rendering, the
  Kubernetes backend, process spawning, TLS and Unix sockets, tokens, sessions and webhook
  signatures: plumbing, or not where the hard properties are.
- The Postgres event and configuration stores mean what their SQLite twins mean; the
  tables are modelled once.  `SelfOwnsAll` and the in-process bus only add easy members.
- `JsonlStore` renumbers its cursors when it prunes; the fleet stream is modelled over
  ordinals that never change.
- `sse/tail.rs`, the per-agent stream that heals its own lag, is not part of this model.
- A SQL statement is one step, and so is the `try_acquire` for a workspace's lifecycle
  lease with its mirror update; a database error reported after the statement took effect
  is not modelled.
- SingleWriter.SingleWriterSafety: a mirrored lease is granted or renewed at least once an
  interval.
- LeaseDiscipline.AtomicStepsAreSafe: no database error on renewing a lease that is relied
  on; `FaultyRenewalBreaks` is what one leads to.
- LeasedOwnership.Ownership.Heartbeat: one pass that nothing interrupts;
  LeasedOwnership.PassIsItsSteps takes it apart into the steps that `SingleWriter`
  interleaves with everything else.
- Lease clocks: one nondecreasing clock, the database's.
- Cron texts, white-space trimming, JSON printing, RFC 3339 parsing, hashes and the
  normalization of frames are parameters: any function, with what is needed of it stated
  in the lemma that needs it.
- Leap seconds, and events, ticks and deadlines outside years 0000 to 9999.
- `DayOf` slices characters, which is what the source does for the ASCII timestamps it
  writes.  For a timestamp of fewer than ten characters the SQLite query and
  `aggregate_usage` disagree; the model follows `aggregate_usage`.
- Floating-point rounding of costs and delays.
- Health events of a workspace (`RepoHealth`), the agents' fields other than their status,
  and `watch_changes`.
- Attach.AttachOnce: a connection is given by its frames, blank lines already skipped.
- Attach.NothingLostIff: assumes that what there is of a line cut short does not parse,
  as no proper prefix of a JSON object does.
- Attach.AttachLoop: what is already seen is local to one call, as in the source, so
  nothing is said of two calls for the same agent.  The connections are given as a
  sequence at least as long as the loop can use up, which it is proved never to exceed.
- Automations.FiresOnce: a webhook or a manual fire does not claim a tick and is not
  modelled.
- ConfigStore.Store.TickAutomations: the pass of one replica without interference; with
  interference it is the machine in `Automations`.
- Emitter.EventEmitter.AppendWithSeqRetry: other replicas append just before each attempt,
  not between a conflict and the read that follows it; `EmitterProtocol` has every
  interleaving.
- EmitterRuns.ConsecutiveHandouts: until a stream's first seq
  is handed out, a failed high-water read must not hide that it has events, nor a prune
  take the newest of them; the counter would then start too low.
- LostEvents.GapsAccounted: under the same condition.
- PollDiff.PollIsAPatch: the registry lists an id once.
- FleetStream.FollowIsOneRead: the log is not pruned between reads; `DeliveredInOrder` and
  `SurvivorsAreDelivered` are about logs that are.
- PollRuns.RunFits: one replica that keeps the lifecycle lease, and ids that are never
  reused; a spawn is one step.
- DeadlineRuns.FailoverInvisibleIff: a deadline is set once, by the spawn, and ids are never
  reused.
- MergedSchemas.RequestsKeepTheirMeaning: assumes that no type is already called what a
  renamed one is to be called, and that the generated definitions are closed.
