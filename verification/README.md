# NetBSD/wrap030: model and proofs

A Dafny model of five pieces of the wrap030 port and of the machine-independent ATA layer it
carries, with the properties their comments and assertions rely on.

- **ATA channel engine** (`AtaChannel`, `AtaQueueInv`, `AtaQueueResults`, `AtaSections`, `AtaDrain`,
  `AtaFreeze`, `AtaWorker`, `AtaHandoff`, `AtaScheduled`, `AtaLife`, `AtaStartLoop`, `AtaDriver`): the pending queue, the active list with its slot mask and
  counter, the freeze count with the three scheduled-run flags, the worker thread, the timeout
  callback and the pool. `AtaChannel` is a transition system: an event is one section of code under
  the channel lock, its parameters are what the environment decides there (the slot handed out, the
  answer of a controller hook), and a run is any sequence of enabled events, so every interleaving is
  a run. One turn of the `atastart` loop up to its first unlock is one event, which allows more
  interleavings than the code.
  `AtaDriver.Channel` is the same code on fields updated in place. A method for a section names its
  event in its contract and is proved equal to it; a turn of the `atastart` loop is a start and the
  polls it makes; the smaller methods are the parts these are made of. `Valid`, which every section
  keeps, is the invariant of the queues, the freeze count and the frees, so what is proved about runs
  holds of the fields.
- **Probe order** (`ProbeOrder`): the queue that makes buses configure one at a time.
- **Page tables** (`Pmap`, `PmapWalk`): `pmap_bootstrap` writing words of physical memory, and the
  MC68030's table search (10 + 10 + 12 bits, short descriptors) over those words.
- **Bus copy** (`BusCopy`), **interrupt lists** (`Isr`, `IsrDispatch`), **crash dump** (`Dump`).

`Seqs` holds facts about duplicate-free sequences. `dafny verify dfyconfig.toml` checks everything.

## What the environment is assumed to do

The conditions of `AtaChannel.Enabled` are the only ones the run results of the channel use: a
transfer is submitted once, for a drive of the channel, and skip-queue transfers are not NCQ; only
active transfers are deactivated, timed or polled again; a driver frees a transfer once, after it left
the queues; the timeout callback ends only after checking every transfer that raced with it; drive
openings are constant. The slot allocator, which is not part of this repository, returns some free
slot below both opening counts, or fails if there is none. `AtaWorker` adds the discipline it states
in `WorkerOnly` and `DrivesKept`.

Values defined outside this repository are taken from the MC68030 User's Manual, section 9
(descriptor type in bits 1-0, write protect in bit 2, cache inhibit in bit 6, TC layout) and from the
use the code makes of them: 4096-byte pages, 4 MB segments, `SYSMAP_VA` equal to
`VM_MAX_KERNEL_ADDRESS`, 512-byte disk blocks, `ATA_MAX_OPENINGS` 32.

## Where the code and its comments or assertions part

The model follows the code; each point has a lemma.

- Slot allocation cannot fail after the opening test, although the comment before it says it can
  (`AllocationNeverFails`).
- The drive loop of the worker may clear the channel's flag without a thaw; the freeze is then never
  paid back (`ForgottenFreeze`, and the exact condition `ConservedIffNothingForgotten`).
- The worker takes any freeze count of one for a postponed transfer. With an explicit freeze and an
  active transfer it thaws for the caller, whose own thaw then trips the assertion (`StolenThaw`; when
  there is a postponed transfer at all: `HandoffOutstandingIff`).
- The worker restarts the head of the active list. Under its discipline that is the postponed
  transfer if and only if no skip-queue transfer is active; otherwise a skip-queue transfer is started
  a second time and the postponed one is forgotten (`HandoffRestartsIff`, `WrongRestartReachable`).
- A postponed transfer that is deactivated before the worker gets to it, with no skip-queue transfer
  pending or active, leaves the channel frozen until one is submitted; in all other states the freeze
  can be paid back without one (`OrphanReachable`, `PaybackIff`, `SkipQueueUnfreezes`).
- A reset scheduled for a drive the drive loop has passed is not carried out, and later requests for
  that drive are dropped (`MissedReachable`, and the exact condition `DriveResetIff`).
- The drain of `ata_kill_pending` is signalled from the interrupt check only: when the last transfer of
  the drive goes another way it sleeps on (`OversleptReachable`, and the exact condition
  `DrainWakesIff`).
- On a channel with one opening no slot is reserved and a recovery command can panic
  (`ReserveIffSeveralOpenings`).
- Killing pending transfers spins when another drive's transfer is queued (`KillEndsIffOneDrive`), and
  a killed transfer can return to the pool exactly if its submitter is not asleep waiting for it
  (`KilledReturnsIff`, `KilledWaiterReachable`).
- A bus whose config thread cannot be created blocks all later buses, and nothing else does
  (`AbandonedReachable`, `DrainsIff`).
- `bus_space_copy_region_N` is declared with the arguments in another order than it is defined
  (`PrototypeOrderIff`).
- `isrlink` never compares with the last entry of a list (`LinkedIff`, `BuiltIff`).

## Model

| member | source | states |
|---|---|---|
| AtaQueueInv.QueueRun | sys/dev/ata/ata.c:1105-1252 | Along every run: both queues duplicate free and disjoint; counter, list, mask and slots agree; slots distinct and below the drive's openings; skip-queue transfers form a prefix; the other active ones are alone or all NCQ on one drive; one slot stays reserved |
| AtaQueueResults.ActiveSetAgrees | sys/dev/ata/ata.c:1292-1312 | In every reachable state `queue_active` = length of the active list = number of mask bits <= openings, the bits are exactly the pairwise distinct slots held, pending and active are disjoint |
| AtaQueueResults.HeadTestIsExact | sys/dev/ata/ata.c:1167-1180 | "Need only check first xfer": in every reachable state the comparison with the head decides the comparison with all active transfers, both ways |
| AtaQueueResults.ActiveAreCompatible | sys/dev/ata/ata.c:1167-1180 | Two active non-skip transfers are NCQ transfers of one drive, whatever the interleaving |
| AtaQueueResults.StartsIff | sys/dev/ata/ata.c:1130-1206 | In every reachable state a turn with the hardware claimed makes the head active if and only if its submitter does not sleep, it skips the queue or the channel is not frozen and everything active is NCQ on its drive like itself, and fewer transfers are active than the openings (one reserved) and, for NCQ, than its drive's |
| AtaSections.StartEffect | sys/dev/ata/ata.c:1128-1240 | What such a turn does to lists, masks, slot, NCQ flag and freeze count when it starts the head; otherwise it panics in the one case for it or changes nothing |
| AtaSections.PanicsWhen | sys/dev/ata/ata.c:480-535 | Each of the three panics comes exactly in the situation its test names, and no other section panics |
| AtaSections.WorkerChoice | sys/dev/ata/ata.c:480-535 | At the top of its loop the worker takes a reset before drive resets before a recovery, runs the kind it takes and clears that flag; with no flag it takes the handoff, panics or waits |
| AtaSections.ScheduleEffect | sys/dev/ata/ata.c:1591-1639 | A request raises the flag of its kind, and the drive's, and freezes exactly if the flag was down; for a drive that has its flag nothing changes |
| AtaSections.RunBegins | sys/dev/ata/ata.c:1641-1652 | A synchronous run of another thread freezes once, clears the flag of its kind and remembers it |
| AtaQueueResults.AllocationNeverFails | sys/dev/ata/ata.c:1188-1206 | By counting slots: after the opening test the allocator always has a slot to give |
| AtaQueueResults.ReserveIffSeveralOpenings | sys/dev/ata/ata.c:1184-1202 | In all runs a lone recovery command at the head is started, never met by the "xfer not possible" panic, if and only if the channel has more than one opening |
| AtaQueueResults.Fifo | sys/dev/ata/ata.c:1053-1058 | Over whole runs: the non-skip transfers taken off the pending queue, followed by those still there, are exactly the sequence submitted |
| AtaQueueResults.FrozenActivatesOnlySkip | sys/dev/ata/ata.c:1150-1162 | While the freeze count is positive only skip-queue transfers become active |
| AtaQueueResults.KillEndsIffOneDrive | sys/dev/ata/ata.c:1500-1518 | The loop over the pending queue ends if and only if every queued transfer is on the drive; then each is killed once, in order |
| AtaQueueResults.DrainedMeansNone | sys/dev/ata/ata.c:1520-1538 | In every reachable state the drain loop is left exactly when no active transfer is on the drive |
| AtaDrain.DrainWakesIff | sys/dev/ata/ata.c:1402-1424 | In every reachable state a sleeping drain can be woken by what is under way if and only if a transfer is being killed by the interrupt check or an active transfer is on a drive with ATA_DRIVE_WAITDRAIN |
| AtaDrain.SleeperWakesIff | sys/dev/ata/ata.c:1402-1424 | The same from any state with the queue invariant |
| AtaDrain.SleepIsWoken | sys/dev/ata/ata.c:1536-1537 | In every reachable state a drain that goes to sleep because of an active transfer on its drive can be woken by what is active then |
| AtaDrain.OversleptReachable | sys/dev/ata/ata.c:1520-1538 | A drain asleep with no active transfer on its drive and no signal to come is reached |
| AtaFreeze.FreezeRun | sys/dev/ata/ata.c:1543-1570 | Freeze conservation along every run: the count is one a scheduled run, one or two a synchronous run, one an explicit freeze, one a postponed transfer, plus what the drive loop forgot, minus unmatched thaws |
| AtaFreeze.ConservedIffNothingForgotten | sys/dev/ata/ata.c:484-496 | With matched thaws the count is exactly what is owed if and only if the drive loop never cleared a set flag |
| AtaFreeze.ThawAssertionHolds | sys/dev/ata/ata.c:1560-1570 | At every matched thaw, including the double thaw of an absorbed run, the count is large enough for the assertion |
| AtaFreeze.CountReturnsToZero | sys/dev/ata/ata.c:1692-1702 | When all holders are done the count is zero |
| AtaFreeze.ForgottenFreeze | sys/dev/ata/ata.c:484-496 | A concrete run after which the channel is frozen and nobody owes a thaw |
| AtaFreeze.HandoffOutstandingIff | sys/dev/ata/ata.c:507-516 | With matched thaws, when the worker reads a count of one as a postponed transfer, some transfer is postponed exactly when no explicit freeze, no other thread's run and no freeze forgotten by the drive loop is in the count; which transfer is restarted is `HandoffRestartsIff` |
| AtaFreeze.StolenThaw | sys/dev/ata/ata.c:507-516 | A concrete run in which the worker's thaw and the caller's take the count below zero |
| AtaWorker.DriveStep | sys/dev/ata/ata.c:484-496 | Under the drive-flag discipline every event keeps a waiting drive for a set channel flag, so the loop never forgets one |
| AtaWorker.WorkerSafety | sys/dev/ata/ata.c:464-541 | In every disciplined run, skip-queue transfers included, neither panic of the worker is reached and the count is what is owed; at the handoff branch NCQ mode is off, exactly one transfer is postponed, and it heads the active list if and only if no skip-queue transfer is active |
| AtaWorker.PlainSafety | sys/dev/ata/ata.c:507-516 | If no skip-queue transfer is submitted no panic at all is reached, and at the handoff branch the one active transfer is the one postponed |
| AtaWorker.PostponedUnpolled | sys/dev/ata/ata.c:518-519 | In any run in which no polled transfer is answered with a postponement, none is ever waiting for the worker |
| AtaHandoff.HandoffRestartsIff | sys/dev/ata/ata.c:507-521 | The worker starts the postponed transfer if and only if no skip-queue transfer is active; otherwise it starts the skip-queue transfer at the head, which some earlier event started, and nothing is postponed any more |
| AtaHandoff.WrongRestartReachable | sys/dev/ata/ata.c:507-521 | A run in which a recovery command is started, taken for the postponed transfer and started again, and the channel is thawed |
| AtaHandoff.ActiveWereStarted | sys/dev/ata/ata.c:1229-1234 | Along every run each active transfer has been passed to c_start |
| AtaHandoff.PaybackIff | sys/dev/ata/ata.c:507-516 | After every disciplined run: the count can get back to zero in a disciplined way without submitting another skip-queue transfer if and only if no postponed transfer has left the active list with no active or pending skip-queue transfer to stand in |
| AtaHandoff.ThawedIffNotOrphaned | sys/dev/ata/ata.c:464-541 | The same from any state with the worker's invariant, whatever the worker is in the middle of |
| AtaHandoff.OrphanWedgesChannel | sys/dev/ata/ata.c:556-562 | From an orphaned state no disciplined run without new skip-queue transfers thaws the channel or activates anything |
| AtaHandoff.OrphanReachable | sys/dev/ata/ata.c:1268-1271 | That state is reached by starting, postponing and deactivating one transfer |
| AtaHandoff.SkipQueueUnfreezes | sys/dev/ata/ata.c:507-521 | After every disciplined run, orphaned or not, submitting a recovery command gets the count back to zero |
| AtaScheduled.DriveResetIff | sys/dev/ata/ata.c:484-496 | A flagged drive can come to be reset, while no other drive's reset is scheduled, if and only if the drive loop has not passed it or, outside the loop, the channel's flag is up |
| AtaScheduled.MissedRun | sys/dev/ata/ata.c:1602-1611 | Otherwise it stays so in every run, new requests for that drive included |
| AtaScheduled.MissedReachable | sys/dev/ata/ata.c:484-496 | A reset scheduled for drive 0 while the loop is at drive 1 is missed |
| AtaScheduled.ScheduledRunIff | sys/dev/ata/ata.c:480-506 | A channel reset or a recovery comes to be run by the worker, nobody asking again, if and only if its flag is up |
| AtaScheduled.RequestIsRun | sys/dev/ata/ata.c:1591-1639 | In any state without a panic a request for one is followed by a run of that kind in some continuation |
| AtaLife.LifeRun | sys/dev/ata/ata.c:1328-1391 | The invariant of deactivation, free and timeout check along every run |
| AtaLife.FreedExactlyOnce | sys/dev/ata/ata.c:1328-1362 | In every reachable state a transfer is in the pool at most once, only after its free, never while C_WAITTIMO or C_WAITACT is set, and exactly when neither a deferred nor a callback's free is outstanding |
| AtaLife.DeferredUntilChecked | sys/dev/ata/ata.c:1378-1379 | A transfer deactivated while the timeout callback is under way has C_WAITTIMO and is not in the pool in every continuation in which the callback has not checked it |
| AtaLife.CalloutIff | sys/dev/ata/ata.c:1374-1376 | After a deactivation the callout is armed exactly if it was and another transfer is active |
| AtaLife.QuietMeansReturned | sys/dev/ata/ata.c:1429-1466 | When the callback is over and nobody waits, a freed transfer is in the pool, given that the callback checked every transfer that raced with it |
| AtaLife.PutIsFinal | sys/dev/ata/ata.c:1360-1362 | No later event of any run puts it there again |
| AtaLife.WaiterNeverFreesEarly | sys/dev/ata/ata.c:1063-1081 | A polling waiter leaving its loop never finds its transfer freed, so the early free there is not taken, given that no driver frees a queued transfer |
| AtaLife.KilledWaiterNeverReturns | sys/dev/ata/ata.c:1063-1068 | A sleeping waiter whose transfer was killed while queued sleeps on in every run and the transfer never reaches the pool |
| AtaLife.KilledReturnsIff | sys/dev/ata/ata.c:1500-1518 | The head of the pending queue, killed, can return to the pool if and only if its submitter is not asleep in `ata_exec_xfer` |
| AtaLife.KilledWaiterReachable | sys/dev/ata/ata.c:1500-1518 | A waiter submitted behind an active transfer and then killed is such a sleeper |
| AtaLife.IdleMeansUnarmed | sys/dev/ata/ata.c:1374-1376 | An idle channel has no timeout armed |
| AtaStartLoop.TurnIsRun | sys/dev/ata/ata.c:1254-1290 | A turn with all its polls and restarts is a run of the transition system |
| AtaStartLoop.StartLoopIsRun | sys/dev/ata/ata.c:1128-1244 | A whole call of `atastart`, which goes back for more only if the final answer of `ata_xfer_start` allows, is a run, so all run results hold across it |
| AtaStartLoop.StartIsMaximal | sys/dev/ata/ata.c:1128-1244 | If every claim and start succeeds and no skip-queue transfer is taken, on return the queue is empty, its head is waited for, the channel is frozen, some active transfer is not NCQ on the head's drive like the head, or an opening count is reached |
| AtaStartLoop.FinalRvIs | sys/dev/ata/ata.c:1254-1290 | The answer of `ata_xfer_start` is the first that is not ATASTART_POLL, or ATASTART_POLL if all are |
| AtaDriver.EventKeeps | sys/dev/ata/ata.c:1020-1703 | Every section keeps the invariant of the queues, the freeze count and the frees that `Valid` is |
| AtaDriver.Channel.ExecXfer | sys/dev/ata/ata.c:1047-1068 | Insertion at the tail or the head and the first wait test; `Valid` kept |
| AtaDriver.Channel.StartTurn | sys/dev/ata/ata.c:1128-1244 | One turn of the loop, polls included: the head is started, in the fields, exactly if it is startable and the hardware was claimed; otherwise nothing changes but for the one panic; the loop goes on exactly after a non-skip start that was not postponed or aborted with openings left |
| AtaDriver.Channel.AtaStart | sys/dev/ata/ata.c:1105-1252 | The loop terminates, its effect is the loop specification for the hooks' answers, and `Valid` is kept |
| AtaQueueResults.RecoveryCommandFirst | sys/dev/ata/ata.c:1300-1309 | What the head insertion is for: in every reachable state the head of the active list, the transfer `ata_queue_get_active_xfer` returns, is a recovery command whenever one is active |
| AtaDriver.Channel.XferStart | sys/dev/ata/ata.c:1254-1290 | The loop over c_start and c_poll: the final answer, and one freeze and one postponed transfer exactly if it is ATASTART_TH |
| AtaDriver.Channel.DeactivateXfer | sys/dev/ata/ata.c:1364-1391 | For every active transfer its two assertions hold; it alone leaves the list and gives its slot back, C_WAITTIMO is set if the callback is under way, the callout stops exactly with the last transfer |
| AtaDriver.Channel.FreeXfer | sys/dev/ata/ata.c:1328-1362 | Deferred while somebody waits, else back to the pool unless private; `Valid` kept |
| AtaDriver.Channel.TimoXferCheck | sys/dev/ata/ata.c:1429-1466 | C_WAITTIMO is cleared, C_FREE too if there was a race, and the answers whether there was one and whether the callback must free |
| AtaDriver.Channel.KillPending | sys/dev/ata/ata.c:1500-1518 | The queue after any number of turns of the loop |
| AtaDriver.Channel.DrainTurn | sys/dev/ata/ata.c:1520-1538 | Left exactly when no active transfer is on the drive, else the drive has ATA_DRIVE_WAITDRAIN and the caller sleeps |
| AtaDriver.Channel.WaitDrainCheck | sys/dev/ata/ata.c:1402-1413 | An interrupt's transfer is killed exactly if its drive has the flag |
| AtaDriver.Channel.SignalDrain | sys/dev/ata/ata.c:1415-1419 | After the kill the flag of the transfer's drive is gone and one sleeper is awake |
| AtaDriver.Channel.ThreadRunSchedule | sys/dev/ata/ata.c:1591-1639 | The flag of the kind is up afterwards, and the drive's; one freeze exactly if the flag was down; nothing at all for a drive that has its flag |
| AtaDriver.Channel.BeginRun | sys/dev/ata/ata.c:1641-1652 | A run by a thread other than the worker, of the kind asked for, joins the holders of the count and takes over the scheduled one |
| AtaDriver.Channel.EndRun | sys/dev/ata/ata.c:1692-1699 | Without unmatched thaws the assertion holds at its one or two thaws, and the run leaves the holders |
| AtaDriver.Channel.ChannelThawLocked | sys/dev/ata/ata.c:1560-1570 | Under its assertion it is the transition, pays back an explicit freeze if there is one, and keeps the count non-negative |
| AtaDriver.Channel.WorkerPolled | sys/dev/ata/ata.c:1271-1279 | The end of a poll of the worker: back to the top of its loop, or another start with the same panic |
| AtaDriver.Channel.WorkerDecides | sys/dev/ata/ata.c:480-533 | Reset before drive resets before recovery, each clearing its own flag, then handoff, panic or nothing, in the fields |
| AtaDriver.Channel.WorkerRunEnds | sys/dev/ata/ata.c:480-506 | The end of the worker's reset or recovery is its transition; the assertion holds at its thaws |
| AtaDriver.Channel.DriveTurn | sys/dev/ata/ata.c:484-496 | A turn of the drive loop up to the reset of the drive, and the clearing of the flag after the last |
| AtaDriver.Channel.DriveRunEnds | sys/dev/ata/ata.c:490-494 | The end of a drive's reset is the transition; the assertion holds at its thaws |
| AtaDriver.Channel.DriveLoop | sys/dev/ata/ata.c:484-496 | The whole loop: every flagged drive is reset, and the scheduled freeze is paid back exactly once if a drive is flagged, forgotten if none is |
| ProbeOrder.OneAtATime | sys/dev/ata/ata.c:252-259 | In every run at most one bus is in its configuration section and it is the head of the queue |
| ProbeOrder.LeaveInOrder | sys/dev/ata/ata.c:419-424 | Buses leave in insertion order, whatever order their probes finish in |
| ProbeOrder.ThreadFindsItself | sys/dev/ata/ata.c:317-321 | The config thread's assertion holds and the queue is not empty |
| ProbeOrder.WaiterFindsHead | sys/dev/ata/ata.c:252-259 | A waiting bus never reads an empty queue |
| ProbeOrder.HeadMovesOn | sys/dev/ata/ata.c:252-302 | Unless its thread could not be created, an event that changes the head's place is enabled |
| ProbeOrder.DrainsIff | sys/dev/ata/ata.c:252-302 | In every reachable state all queued buses can still be configured and leave if and only if the head is not one whose config thread could not be created |
| ProbeOrder.AbandonedBlocks | sys/dev/ata/ata.c:281-286 | Behind such a head no other bus is ever configured |
| ProbeOrder.AbandonedReachable | sys/dev/ata/ata.c:281-286 | It is reached by attaching, waiting and failing to create the thread |
| ProbeOrder.InitQueue.Insert | sys/dev/ata/ata.c:607-613 | Insertion at the tail keeps the invariant of the protocol |
| ProbeOrder.InitQueue.Await | sys/dev/ata/ata.c:252-259 | One turn of the wait loop: the bus that leaves it is alone in its configuration section |
| ProbeOrder.InitQueue.FindEntry | sys/dev/ata/ata.c:317-321 | The config thread's assertion holds: the head is its own entry |
| ProbeOrder.InitQueue.RemoveEntry | sys/dev/ata/ata.c:419-422 | The entry removed at the end of either thread is the head |
| Pmap.EntryWords | sys/arch/wrap030/wrap030/pmap_bootstrap.c:251-252 | Or-ing the flags into a page-aligned address adds them, for each descriptor formed |
| Pmap.Kernel.LinkPageTables | sys/arch/wrap030/wrap030/pmap_bootstrap.c:248-271 | Segment table and Sysptmap hold the descriptors of the page-table pages, nothing else written |
| Pmap.Kernel.InitSegmentTable | sys/arch/wrap030/wrap030/pmap_bootstrap.c:248-323 | Every entry of both tables: page tables, Sysmap, last table, invalid |
| Pmap.Kernel.InitLastTable | sys/arch/wrap030/wrap030/pmap_bootstrap.c:335-346 | The last table is invalid but for its last entry |
| Pmap.Kernel.InitPageTables | sys/arch/wrap030/wrap030/pmap_bootstrap.c:357-457 | Every entry: text read-only, the rest up to the end of the tables writable, invalid after |
| Pmap.Kernel.Bootstrap | sys/arch/wrap030/wrap030/pmap_bootstrap.c:137-522 | All four tables stand complete, memory outside them is unchanged, and the exported variables |
| PmapWalk.BuildAddressSpace | sys/arch/wrap030/wrap030/pmap_bootstrap.c:137-522 | After `pmap_bootstrap` every walk from the root it exports is the intended translation, for every 32-bit address |
| PmapWalk.WalkIsIntended | sys/arch/wrap030/wrap030/pmap_bootstrap.c:178-457 | For every 32-bit address the hardware walk of the words written is the intended translation: kernel, window, last page, fault |
| PmapWalk.KernelAddresses | sys/arch/wrap030/wrap030/pmap_bootstrap.c:174-176 | Every physical address from firstpa to the end of the tables is seen at PA - firstpa, read-only exactly below the truncated text end |
| PmapWalk.TablesAreWritable | sys/arch/wrap030/wrap030/pmap_bootstrap.c:421-457 | The u-area and the tables themselves are mapped writable |
| PmapWalk.MappedIff | sys/arch/wrap030/wrap030/pmap_bootstrap.c:278-346 | Exactly the kernel, the window entries and the page at MAXADDR are mapped |
| PmapWalk.SelfMap | sys/arch/wrap030/wrap030/pmap_bootstrap.c:308-313 | SYSMAP_VA + 4 * (va >> PGSHIFT) translates to the address of the entry the walk of va ends with |
| PmapWalk.SysptmapAgrees | sys/arch/wrap030/wrap030/pmap_bootstrap.c:216-226 | Segment table and Sysptmap agree entry by entry on validity and frame |
| PmapWalk.SpecialPagesUnmapped | sys/arch/wrap030/wrap030/pmap_bootstrap.c:507-522 | The pages set aside after the kernel are unmapped |
| BusCopy.ReadOrder | sys/arch/wrap030/include/bus.h:168-181 | Reads through the ATA tag take the device's bytes as little-endian, reads through the other tags as big-endian, for every width |
| BusCopy.SwapsCancel | sys/arch/wrap030/include/bus.h:168-181 | For every tag and width the swap of a write undoes that of a read |
| BusCopy.Bus.CopyForward | sys/arch/wrap030/include/bus.h:814-818 | The forward loop moves the bytes for every overlap with the source not below the destination |
| BusCopy.Bus.CopyBackward | sys/arch/wrap030/include/bus.h:819-824 | The backward loop for the other overlaps, with its unsigned wrap |
| BusCopy.Bus.CopyRegion | sys/arch/wrap030/include/bus.h:807-825 | For every overlap, count, width and tag the destination ends with the source's original bytes and nothing else changes |
| BusCopy.CopiedValues | sys/arch/wrap030/include/bus.h:786-798 | Values read from the destination afterwards are those the source gave before |
| BusCopy.PrototypeOrderIff | sys/arch/wrap030/include/bus.h:800-810 | For all 32-bit arguments, sums wrapping: a call in the prototype's argument order copies as documented, for all memories, if and only if nothing is copied, the second and third argument are equal, or both orders copy a region onto itself |
| Isr.PlaceIsFirstBeaten | sys/arch/wrap030/wrap030/isr.c:121-128 | The scan stops at the first entry, except the last, that the new one beats |
| Isr.LinkedIff | sys/arch/wrap030/wrap030/isr.c:103-134 | The list is ordered after linking if and only if it was before and the new priority does not beat the last entry alone |
| Isr.LinkedIsStable | sys/arch/wrap030/wrap030/isr.c:116-120 | In an ordered list everything behind the new entry has lower priority |
| Isr.LinkedKeepsAll | sys/arch/wrap030/wrap030/isr.c:103-134 | The entries are the old ones and the new one |
| Isr.BuiltIff | sys/arch/wrap030/wrap030/isr.c:70-138 | After any sequence of links the list is ordered if and only if no handler was linked with a higher priority than exactly one of those linked before it |
| Isr.SecondHandlerMisplaced | sys/arch/wrap030/wrap030/isr.c:121-134 | A handler of higher priority linked second stays second |
| Isr.IsrList.InsertBefore | sys/arch/wrap030/wrap030/isr.c:124-125 | The splice keeps the linked list well formed |
| Isr.IsrList.Link | sys/arch/wrap030/wrap030/isr.c:103-134 | Scan and splice on the heap put the handler where `Place` says |
| IsrDispatch.Interrupts.constructor | sys/arch/wrap030/wrap030/isr.c:55-64 | Eight empty lists |
| IsrDispatch.Interrupts.IsrLink | sys/arch/wrap030/wrap030/isr.c:70-138 | A bad level panics, else the chosen list gains the handler |
| IsrDispatch.Interrupts.Dispatch | sys/arch/wrap030/wrap030/isr.c:157-200 | Bad vector, counters, every handler of the level called in order, `idepth` one higher while they run at IPL_VM or above, and restored |
| IsrDispatch.Interrupts.CpuIntrP | sys/arch/wrap030/wrap030/isr.c:202-207 | Whether `idepth` is positive |
| IsrDispatch.PanicsIff | sys/arch/wrap030/wrap030/isr.c:178-195 | Over all interrupts the panic comes exactly with 51 strays and no handled one between, or 11 on empty levels |
| IsrDispatch.CpuIntrIff | sys/arch/wrap030/wrap030/isr.c:202-207 | `cpu_intr_p` holds exactly inside some dispatch at IPL_VM or above, however nested |
| Dump.Dumper.CpuDumpconf | sys/arch/wrap030/wrap030/machdep.c:529-554 | On a usable partition: clear of the label, ending with the partition, as much of memory as fits |
| Dump.ConfiguringTwice | sys/arch/wrap030/wrap030/machdep.c:529-554 | A second call changes nothing |
| Dump.RoomIff | sys/arch/wrap030/wrap030/machdep.c:549-553 | The size is not negative exactly when the configured start lies in the partition |
| Dump.Dumper.Dumpsys | sys/arch/wrap030/wrap030/machdep.c:560-636 | A dump not placed yet is placed first; consecutive pages go to consecutive blocks inside [ctod(1), nblks), up to the first error |

## Left out

- The bit masks `active_xfers_used` and the free-slot mask are sets of bit numbers; flag words are sets and booleans.
- The flags and the slot of a transfer are fields of the channel keyed by the transfer, not of a transfer object, so aliasing of a reused pool object is not captured: a reuse is a new transfer.
- Condition-variable signals other than `queue_drain`: a sleeping thread may test its condition whenever it runs, so lost wake-ups are not captured.
- `ata_kill_active`, the QF_IDLE_WAIT hint of `ata_channel_idle`, ATACH_RECOVERING, `drive_flags` other than the two used here, PIOBM and `atac_free_hw`.
- Rescans and shutdown of a bus, and a second queue entry for a bus being configured.
- AtaDriver.Channel.XferStart: the answers of the hooks are given in advance; what `c_poll` and `c_abort` do to the transfer while the lock is free (deactivate and free it) is events of their own.
- AtaDriver.Channel.DriveLoop: nothing else runs while a drive is being reset; the sections it is made of have no such limit.
- AtaDriver.Channel.AtaStart: nothing else runs while a hook has dropped the lock, so a transfer that its own poll completes still counts as active in the loop test; interference there is covered by the runs of `AtaChannel`, where each turn is its own event.
- AtaDriver.Channel.KillPending: cut off after a given number of turns, because the loop of the code need not end.
- AtaWorker.WorkerSafety: explicit freezes and synchronous runs by other threads are excluded there; `AtaFreeze` says what happens with them.
- Attaching and detaching, ioctls, IDENTIFY, mode probing, power management, SATA port multipliers and RAID.
- Pmap.Kernel.Bootstrap: the exported kernel variables are fields, not words of the memory below the tables; the 68040 branches and debug output are absent.
- The transparent translation register, which takes addresses with bit 31 set away from the table search.
- The register streaming loops and set macros of `bus.h`, and address wrap-around of handle plus offset.
- Device drivers, `trap.c`, `locore.s` and `autoconf.c`; `locore.s` is used for the root pointer, the TC value and the caller's guarantees to `pmap_bootstrap`.
