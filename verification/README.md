# xhci98: proofs about ring ownership, resets and the driver's concurrent protocols

This project models the endpoint and ring management of the xhci98 USB host controller driver and
the shorter protocols beside it, and proves what they keep in every run.

- `OwnTable`, `RingCells`, `RingOwner`: who holds an endpoint's ring, stream block and isochronous
  page across selects, function selects, releases, deconfigures, hub opens, streams opens and closes,
  port resets and the device's going. The controller is an adversary: a command may succeed, be
  refused, never be issued, or never be answered, and after the last it may hold either of two whole
  sets of Endpoint Contexts. `RingCells` is everything at one DCI (the driver's tables are indexed by
  DCI and its loops treat each alone); every function there that gives something back demands that no
  context the controller may hold names it. `RingOwner.Device` runs the operations.
- `PipeReset`: the pause count, the owed device half and SeqUsed of one bulk or interrupt endpoint.
- `CancelRing`: taking cancelled TDs off a stopped ring that wraps.
- `StreamResync`, `SoftRetry`, `ReleaseDebt`, `DeferredIrps`: the QEMU stream resync, the soft retry's
  generations, the release a removed function is owed, and slow IRPs behind a suspended link.
- `AcpiTables`: the firmware-table set, its readers, epoch, closed flag and gate.
- `MapPump`, `MapPieces`: the DMA map pump and the page splitting of one chunk.
- `SaveGuard`: the guard on a saved controller image. `Common`: an optional value, and counting the
  threads that play a part.

Code that updates fields under one thread is modelled as classes and loops (`RingOwner`, `PipeReset`,
`CancelRing`, `StreamResync`, `ReleaseDebt`, `MapPieces`, `SaveGuard`); what other code decides - the
device, the controller, the pool, the HAL - is a nondeterministic choice inside a method. Code that
several threads run is a transition system whose steps are the sections under one lock (`AcpiTables`,
`MapPump`, `SoftRetry`, `DeferredIrps`): the theorems hold for every interleaving, and for the first
two a class with the program's own fields is proved to take exactly those steps.

Four properties are false as promised. Each is stated with its exact condition and an input or run that
reaches the exception:

- a set read before 2^32 stops is published, the 32-bit epoch having come round (`PublishedExactlyWhen`,
  `WrappedEpochPublishes`);
- SYNC_CLEAR_STALL on a pipe that owes nothing leaves host and device apart unless the host's sequence is
  at its restart (`ClearStall`, `ClearStallSplitsTheEnds`);
- a CLEAR_FEATURE the device carries out and answers with an error, which the code reads as not taken, does
  the same. At every step of every run at which the pipe can run, the two ends agree if and only if neither
  kind of clear has met a host's sequence past its restart since both ends were last restarted (`Run`,
  `ErrorAnswerSplitsTheEnds`);
- a cancel's settle leaves the controller in the queue's head exactly when every TD it has passed was held
  and its saved dequeue could be read, or it has passed none. At any other stop, with the dequeue not moved,
  the surviving head is left out of what runs; and the TD the controller stopped in is rewritten exactly when
  the settle left it behind the head and it is cancelled (`StopSettle`, `CancelPipe`, `UnreadStopFails`).

## Model

| member | source | states |
|---|---|---|
| OwnTable.SelectEnds | src/xhci_own.c:62-170 | Every step of a select, whatever happened, brings it nearer its end, and the answer is given exactly there. |
| OwnTable.SelectFates | src/xhci_own.c:52-170 | A select pins both sides exactly when it cannot know what happened, succeeds exactly when it publishes the new side, never publishes both, carries a STALL out by clears exactly when it may roll back and the interface has one setting, and rolls back exactly a STALL that stood when no old pipe had streams. |
| OwnTable.SelectTells | src/xhci_own.c:62-170 | Whatever the controller and the device answer, the table goes on or ends as what it was told so far does: its answer and the fate of both sides are those of the story, which names no row of the table. |
| OwnTable.StoryEnds | src/xhci_own.c:62-170 | A story is a success exactly when the device took the new setting, by the request or by the clears of an interface with one, and puts the old side back exactly when both ends are known to be at the old setting. |
| RingCells.NothingNamedIsBack | src/hcd_cfg.c:1627-1639 | What was given back is named by no context the controller may hold, was never pinned, is held nowhere, and was given back once. |
| RingCells.RingInOnePlace | src/hcd_cfg.c:1640-1700 | A pool ring is in exactly one of: an open pipe, a switch's old or new pipe, held, pinned, given back. |
| RingCells.PipeFreeEx | src/hcd_cfg.c:1528-1568 | Giving a pipe up puts its ring back, its block and its page back on a proof and on the retired list without one, a page with neither a proof nor a record kept; nothing a context may name goes back, and its event count returns once. |
| RingCells.RetainPipe | src/hcd_cfg.c:1640-1665 | A held pipe keeps its ring, has its DCI stale and its event count returned; a pinned one is on record as pinned. |
| RingCells.Succeed | src/hcd_cfg.c:774-824 | A Configure Endpoint that succeeded rewrites the context and releases every held pipe and retired block it dropped, never a pinned one. |
| RingCells.ApplyOne | src/hcd_cfg.c:2404-2462 | One step's actions at one DCI leave every slot, list and stale mark as the table's fates say, and keep every acquisition in one place. |
| RingCells.TableIsEntitled | src/xhci_own.c:62-170 | In every phase and for every event the table gives back only what the phase has proved unnamed. |
| RingCells.PhaseFollows | src/hcd_cfg.c:2404-2462 | After each step the cell is what the next phase relies on: before the command no context names a new pipe, after it and until a rollback succeeds none names an old one; the DCI stays stale only if the command did not succeed or one of its pipes was held. |
| RingCells.SwitchSupersedesOld | src/hcd_cfg.c:2572-2596 | The switch's command, if it succeeded, took every old pipe's names away and left no held pipe that is not pinned. |
| RingCells.AllGivenBack | src/hcd_cfg.c:1728-1751 | With nothing held, every acquisition - ring, stream block, page - was given back, once. |
| RingOwner.Device.Command | src/hcd_cfg.c:801-824 | Success rewrites the contexts and reclaims, a refusal changes nothing, no answer changes at most what the controller may hold and halts the thread. |
| RingOwner.Device.ConfigureAdd | src/hcd_cfg.c:1087-1164 | The same over the retry at ordinary intervals and a build that issues nothing. |
| RingOwner.Device.SwitchDetach | src/hcd_cfg.c:2296-2341 | A failed abort leaves every pipe published; otherwise exactly the open pipes asked for are detached, unchanged. |
| RingOwner.Device.PipeNew | src/hcd_cfg.c:1375-1486 | A new pipe is on rings acquired now that no context names, isochronous exactly if the endpoint is, with the count and the page of one only then; a refusal leaves the DCI as it was; the event budget stays the sum over the isochronous pipes of their rings' capacities and the events beyond. |
| RingOwner.CountIso | src/hcd_cfg.c:1219-1308 | The budget grows by the capacity of the ring the pipe ends on and the events beyond, that of the pool ring when the page's memory fails. |
| RingOwner.Device.SwitchReserved | src/hcd_cfg.c:2346-2357 | The reservation counts the detached pipes and the held ones not pinned. |
| RingOwner.ReservationIsExact | src/hcd_cfg.c:2346-2357 | That number is exactly the rings the switch's successful command drops; no held pipe is left behind. |
| RingOwner.Device.SwitchConfigure | src/hcd_cfg.c:2572-2596 | No pipe moves; a success leaves no old pipe named and none held unpinned; a refusal or nothing issued changes nothing. |
| RingOwner.Device.SwitchRollback | src/hcd_cfg.c:2525-2565 | A rollback that succeeded leaves no new pipe named. |
| RingOwner.Device.SwitchApply | src/hcd_cfg.c:2404-2462 | The step's actions at every DCI, the event budget exact throughout. |
| RingOwner.Device.SwitchRun | src/hcd_cfg.c:2622-2658 | A switch ends, having been told a whole story; its answer is the story's, nothing of it is left in flight, each side met the story's fate at every DCI, and what is open is the whole new setting, the whole old setting as it was, or neither. |
| RingOwner.SwitchSettlesEveryPipe | src/hcd_cfg.c:2404-2462 | At its end every old and every new pipe is in exactly one of published, held, pinned, given back. |
| RingOwner.Device.SelectInterface | src/hcd_cfg.c:2741-2941 | For every outcome: a success exactly if SET_INTERFACE was taken, or a STALL of an interface with one setting was carried out by clears; the old pipes put back exactly after a failed abort, a command refused or not issued, or a rollback whose clears were done; the endpoints are the whole new setting on new rings, the whole old one with its own pipes, or none; the other pipes stay; a success dropped exactly the rings reserved before the build; and one that issued no command had a cause. |
| RingOwner.Device.UnconfigureFunction | src/hcd_cfg.c:3061-3090 | A function's drop keeps ownership for every outcome; a success closes exactly its pipes, gives them back and releases every held one not pinned; not issued or refused they are held, their DCIs stale; not answered, pinned. |
| RingOwner.Device.Deconfigure | src/hcd_cfg.c:4108-4160 | Either every pipe stays open, or every endpoint is Disabled, nothing is open, held or stale, and every ring ever acquired is pinned or back, once. |
| RingOwner.Device.SelectConfiguration | src/hcd_cfg.c:1947-2186 | A success opens exactly the configuration's endpoints, each of its kind; refused, the new pipes are back; not answered, pinned; after any other failure everything is taken down, unless the deconfigure fails too; and a failure has a cause. |
| RingOwner.Device.HubOpen | src/hcd_cfg.c:1865-1928 | Opened on a new ring, or nothing published: its ring pinned if the command was not answered, back if it was refused or never issued; and it fails only for a cause. |
| RingOwner.Device.StreamsOpen | src/hcd_cfg.c:5575-5655 | The pipe keeps its ring and has the new block exactly if opened; the block of an unanswered command is retired, of a refused or unissued one given back. |
| RingOwner.Device.StreamsClose | src/hcd_cfg.c:5681-5717 | The block leaves the pipe, and goes back, exactly if the command without it succeeded. |
| RingOwner.Device.ResetPort | src/hcd_cfg.c:4958-5043 | Every pipe keeps its handle and ring and every pin; after a Reset Device that succeeded nothing is held, retired or stale, otherwise every table is as it was. |
| RingOwner.Device.DeviceGone | src/hcd_cfg.c:1728-1751 | Everything acquired has been given back exactly once, pinned or not, and the event budget is the other devices' alone. |
| RingOwner.Device.GivenBackIsNeverNamed | src/hcd_cfg.c:1627-1639 | In every state the operations reach, no context the controller may hold, at any DCI, names anything given back, and nothing pinned was given back while the slot is there. |
| RingOwner.Device.Serve | src/hcd_cfg.c:6232-6400 | Any number of requests in any order with any outcomes keeps all of it; nothing is served once the thread is halted. |
| RingOwner.Controller.Serve | src/hcd_cfg.c:1190-1308 | Whatever any device does, the event budget given out is the sum of the counts of every pipe of every device; one that goes returns exactly its own. |
| PipeReset.Endpoint.Abort | src/hcd_cfg.c:4264-4316 | A success leaves the ring empty, the endpoint Stopped and only the owed half's pause; a fault leaves one pause more and had a command that failed. |
| PipeReset.Endpoint.Cancel | src/hcd_cfg.c:4666-4784 | Exactly the cancelled TDs leave; a success leaves the survivors running if a doorbell may be rung, and waiting only if not; the pause count as before, and the ends still agree whenever the pipe can run. |
| PipeReset.Endpoint.ResetHost | src/hcd_cfg.c:4407-4440 | The halt cleared, neither sequence touched, an owed half stays owed; busy exactly with a request on the pipe or its ring, and then nothing changes. |
| PipeReset.Endpoint.ResetClear | src/hcd_cfg.c:4458-4500 | A clear not taken before the host's half resumes the pipe with nothing owed; after it, the pipe stays paused with the device's half owed; a timeout leaves it paused; busy exactly for a clear that never went out. |
| PipeReset.Endpoint.RestartBoth | src/xhci_pipe.c:1749-1793 | The steps for the endpoint's state restart both ends or leave the protocol's invariant with the pipe held back. |
| PipeReset.Endpoint.Reset | src/hcd_cfg.c:4531-4610 | A success leaves both ends restarted, nothing owed and the ring empty; the ends are split exactly when the request fails with its clear answered by an error but carried out, the host's sequence past its restart; the pause count is the owed half plus the faults. |
| PipeReset.Endpoint.ClearStall | src/hcd_cfg.c:4360-4373 | Carried out on a free pipe, the two ends agree afterwards exactly when the host's sequence is at its restart. |
| PipeReset.ClearStallSplitsTheEnds | src/hcd_cfg.c:4360-4373 | A run that reaches it: after one packet, a SYNC_CLEAR_STALL that succeeds leaves the ends apart with the pipe free to run. |
| PipeReset.ErrorAnswerSplitsTheEnds | src/hcd_cfg.c:4458-4500 | A run that reaches it: after one packet, a RESET_PIPE whose clear is carried out and answered with an error leaves the ends apart with the pipe free to run. |
| PipeReset.Endpoint.StreamsOpen | src/hcd_cfg.c:5575-5655 | A success leaves both ends fresh; a refused command after the device's clear resumes only once the host's end is restarted too. |
| PipeReset.Endpoint.StreamsClose | src/hcd_cfg.c:5672-5717 | A success leaves both ends fresh; a failed command leaves the pipe paused. |
| PipeReset.Endpoint.Run | src/hcd_cfg.c:4407-4610 | In every run, SYNC_CLEAR_STALL included, at every step after which the pipe is not paused the ends agree if and only if no step since both were last restarted carried out a clear its host's half did not follow, the host's sequence past its restart; the pause count is the owed half plus the faults, each with a command that failed; and every cancel that may ring leaves its survivors running, so none waits on a Stopped pipe unless some cancel could not ring. |
| CancelRing.LaidExecutes | src/hcd_cfg.c:4649-4664 | A ring laid out with whole TDs and No Ops executes exactly those TDs in order. |
| CancelRing.SurvivorsLaid | src/hcd_cfg.c:4737-4756 | Turning the taken TDs into No Ops leaves a ring laid out for the survivors. |
| CancelRing.Gather | src/hcd_cfg.c:4721-4733 | With at most two TDs a record, the fixed array holds every cancelled TD. |
| CancelRing.CancelPlace | src/xhci_xfer.c:3023-3060 | The dequeue moves exactly if the head is taken or the endpoint is in Error, to the oldest survivor or the enqueue. |
| CancelRing.BlankTd | src/hcd_cfg.c:4739-4747 | Exactly the TD's slots become No Ops, across the wrap. |
| CancelRing.StopPlace | src/xhci_xfer.c:2939-3020 | The number of TDs wholly before the stop if every one of them is held, UNREAD otherwise. |
| CancelRing.TransferRing.StopSettle | src/hcd_dev.c:740-778 | For every stop: the passed held TDs are retired in order, or none; afterwards the controller is in the head or before it if and only if none was passed, or all were held and the reading could be read. |
| CancelRing.TransferRing.CancelPipe | src/hcd_cfg.c:4713-4768 | A cancel that moves the dequeue and succeeds leaves the controller executing exactly the survivors in their old order; one that moves nothing, under the settle's condition, the rest of the head it stopped in and exactly the other survivors, and without it, a part of the survivors that leaves the whole head out. Exactly the cancelled TDs behind the head are rewritten, and under the condition the controller stopped in none of them. |
| CancelRing.UnreadStopFails | src/xhci_xfer.c:2939-3020 | The condition is needed: at a stop past a TD that is not held the surviving TD is skipped and the TD the controller stopped in is rewritten. |
| StreamResync.Resync | src/hcd_cfg.c:3709-3802 | Ends within 3*Count Set TR Dequeue and 2 Stop commands, each Stop for a restart of the endpoint; a finished pass settled every stream with Stopped read before each since the last Stop, exactly those that owed a resync by one that succeeded; it gives up only on a turn no further Stop may mend or a Stop that failed; and every entry is what the endpoint said to it, an undisturbed resync being clean. |
| SoftRetry.StepKeepsInv | src/hcd_cfg.c:6069-6224 | Every step of the event half and the thread keeps requests on record and the generations in order. |
| SoftRetry.RequestNeverLost | src/hcd_cfg.c:6182-6224 | While the controller has not failed, a pending queue has RetryWork set or is still to be visited in the pass. |
| SoftRetry.ClearedExactlyWhen | src/hcd_cfg.c:6144-6160 | After its Reset Endpoint a decision clears the request exactly when nothing was diverted since; a newer divert is left pending with the next pass on record; no other queue is touched. A divert halts the endpoint until the thread restarts it, so the 32-bit generation never comes round meanwhile. |
| SoftRetry.DivertAsks | src/hcd_dev.c:143-158 | A divert makes exactly its own queue pending, with the next pass on record and its endpoint halted. |
| SoftRetry.DivertIsAnswered | src/hcd_cfg.c:6069-6224 | In every run a request that is no longer pending was answered: replayed, retried with nothing diverted since, settled by another recovery, or gone with its queue. |
| DeferredIrps.StepKeepsInv | src/hcd_cfg.c:255-401 | Every step keeps exactly one party answering for each IRP, and both counts exact. |
| DeferredIrps.ExactlyOnce | src/hcd_cfg.c:255-401 | An IRP is completed or handed on at most once for every interleaving, and until then exactly one party can take its next step. |
| DeferredIrps.CancelReachesTheDeferred | src/hcd_cfg.c:255-315 | A deferred IRP whose cancel came at any time, its arming included, has its cancel routine called: it never waits behind the link with its cancel spent. |
| DeferredIrps.NoneDeferredOnceClosing | src/hcd_cfg.c:285-305 | Once a PDO closes, no IRP of it is deferred that was not deferred before. |
| DeferredIrps.WaitsInSubmissionOrder | src/hcd_cfg.c:285-401 | In every run, what waits for a device and no cancel routine owns - deferred, in the thread's hand, queued - is in the order it was submitted. |
| DeferredIrps.UndeferralKeepsOrder | src/hcd_cfg.c:323-401 | In every run an undeferral at its end has put what it claimed, in its order, ahead of what was queued, and left exactly what a cancel routine owns, whatever was cancelled between its entries. |
| DeferredIrps.WalkCanGoOn | src/hcd_cfg.c:323-349 | The undeferral's walk never finds an entry it cannot pass or claim. |
| DeferredIrps.ThreadGoesOn | src/hcd_cfg.c:285-315 | The thread can always go on with the IRP it has dequeued. |
| DeferredIrps.ClaimersLeaveTheCancelled | src/hcd_cfg.c:323-349 | An IRP whose cancel routine was called is still on the list and no claimer takes it. |
| DeferredIrps.CountsAreHolders | src/hcd_cfg.c:215-241 | Device references and UrbsPending equal the IRPs that still hold one. |
| DeferredIrps.TakeToHead | src/hcd_cfg.c:323-349 | The undeferral puts the claimed IRPs, in their order, ahead of what was queued, and leaves the others in theirs. |
| DeferredIrps.TakeToTail | src/hcd_cfg.c:323-349 | A flush appends the claimed ones in their order. |
| ReleaseDebt.Device.CountFailures | src/hcd_cfg.c:3166-3183 | An interface is spent exactly at its third failed pass in a row; a pass that gives up counts once. |
| ReleaseDebt.Device.Unconfigure | src/hcd_cfg.c:3061-3090 | If the Configure Endpoint succeeded the interfaces have no endpoints and exactly those not back at alternate 0 are owed; otherwise all are. |
| ReleaseDebt.Device.ReleaseOne | src/hcd_cfg.c:3139-3183 | Every interface has one fate or is still owed: released only with its endpoints dropped and at alternate 0, still owed or given up only if not, one failure nearer its end, given up exactly at its third failed pass in a row, dropped only with a gone or unconfigured device or a recovery; whatever leaves has its tries start afresh. |
| ReleaseDebt.Device.Pass | src/hcd_cfg.c:3203-3227 | Over an active link every interface owed is tried, and one that stays is one failure nearer its end; over an inactive one nothing changes; the record afterwards is exactly what arrived meanwhile and what was owed and has no such fate; a pass that gives up counts once. |
| ReleaseDebt.Device.SelectWith | src/hcd_cfg.c:3357-3460 | A select takes over what it names exactly if it succeeded, with those interfaces at its alternates; an unconfigure leaves owed exactly the interfaces not at alternate 0; anything else leaves what was held. |
| ReleaseDebt.Device.Serve | src/hcd_cfg.c:6265-6400 | The record after a request is exactly what arrived, what was owed and has no fate, and what the request itself could not release; only a select that succeeded takes anything over. |
| ReleaseDebt.Device.Run | src/hcd_cfg.c:3139-3227 | Over any number of releases, passes and requests, what arrives in a turn is on record at its end, and what is on record at the end of any turn stays there unless, after that turn, it was released, taken over by a select that succeeded, given up at a third failed pass in a row, or dropped with the device or controller; and without a recovery it leaves within three turns over an active link. |
| AcpiTables.StepKeepsInv | src/hcd_acpi.c:59-341 | Every step of every thread keeps reader counts, freers, makers and the gate exact, and touches only what is allocated. |
| AcpiTables.EveryRunIsSafe | src/hcd_acpi.c:167-341 | No interleaving gets stuck on a set that was freed. |
| AcpiTables.NeverReadAfterFree | src/hcd_acpi.c:216-341 | Every step finds what it dereferences allocated and never freed, and no count wraps below 0. |
| AcpiTables.FreedExactlyOnce | src/hcd_acpi.c:59-107 | Each set ever made is allocated and never freed, or freed once. |
| AcpiTables.FreedOnlyUnread | src/hcd_acpi.c:67-107 | A free happens only off the controller, with no other reader or freer. |
| AcpiTables.GoneUnreadIsBeingFreed | src/hcd_acpi.c:67-107 | A set Gone with no reader has exactly one thread about to free it. |
| AcpiTables.NothingLeaks | src/hcd_acpi.c:80-107 | With every thread done, what is allocated is what is on the controller, unread, and the gate is free. |
| AcpiTables.StopForgets | src/hcd_acpi.c:67-93 | After a stop the controller has no set and admits nothing; the set it had is Gone, and the stopping thread is about to free it exactly if nobody reads it; no other set is touched. |
| AcpiTables.ReleaseForgets | src/hcd_acpi.c:216-233 | A release that is admitted does the same, with admission left open. |
| AcpiTables.NoSetOutlivesAStop | src/hcd_acpi.c:67-93 | Whatever runs after a stop, starts included, a set on the controller was published after it. |
| AcpiTables.FirstRequestServed | src/hcd_acpi.c:216-341 | A first request with nothing in its way reads and publishes the tables and answers from them; with the last byte it leaves the controller as it was and the set freed, otherwise the set on the controller, unread. |
| AcpiTables.NextRequestServed | src/hcd_acpi.c:216-341 | A request that finds a set is served from it with nothing read; the last byte takes it off the controller, and it is freed there exactly if nobody else reads it. |
| AcpiTables.OneGateHolder | src/hcd_acpi.c:245-317 | At most one request holds the gate. |
| AcpiTables.HolderReleases | src/hcd_acpi.c:245-317 | Each of the holder's steps brings it nearer its release, no other thread moves it, and leaving frees the gate. |
| AcpiTables.PublishedExactlyWhen | src/hcd_acpi.c:291-310 | At the publish test the controller has no set, and the new one is published exactly when admission is open and the stops since its admission are a multiple of 2^32. |
| AcpiTables.NeverPublishedAcrossStop | src/hcd_acpi.c:291-310 | A reading admitted before a stop is not published, even after a start. |
| AcpiTables.WrappedEpochPublishes | src/hcd_acpi.c:80-93 | The wrap is reachable: after 2^32 stops such a reading is published. |
| AcpiTables.Controller.Forget | src/hcd_acpi.c:80-93 | The set is off the controller and Gone, admission closed, the 32-bit epoch one on, and the set the caller's to free exactly if nobody reads it. |
| AcpiTables.Controller.PutReader | src/hcd_acpi.c:95-107 | One reader less, and the set the caller's to free exactly when it is left Gone with no reader. |
| AcpiTables.Controller.AdmitRequest | src/hcd_acpi.c:216-233 | Refused on a closed controller; otherwise the epoch, and a reader on the set there is, or for a release the set off the controller. |
| AcpiTables.Controller.TestGate | src/hcd_acpi.c:256-266 | Refused exactly when closed or the epoch has moved; otherwise a reader on the set there is, and a reading only if there is none. |
| AcpiTables.Controller.PublishMade | src/hcd_acpi.c:291-310 | Published exactly when open, in the epoch of its admission, with no set there; under a generation that is new and never 0. |
| AcpiTables.Controller.LastByteSent | src/hcd_acpi.c:330-338 | That set off the controller and Gone if it was there, any other left alone. |
| MapPump.StepKeepsInv | src/hcd_dma.c:192-280 | Every step keeps MapBusy for exactly one activity, the in-flight count exact, someone due whenever a record waits at an idle pump, and every record started in one agent's hands or reported once. |
| MapPump.OneChannelRequest | src/hcd_dma.c:192-235 | Never two channel requests outstanding. |
| MapPump.NoLostWakeup | src/hcd_dma.c:192-280 | A record that waits at a pump not busy has a caller or DPC due to start it. |
| MapPump.EachReportedOnce | src/hcd_dma.c:192-280 | No record is reported twice or before it was started; once nobody is in the pump, every record queued was started and reported exactly once, mapped or refused. |
| MapPump.OneCarrier | src/hcd_dma.c:192-280 | A record started and not yet reported is in one agent's hands. |
| MapPump.IdleMeansNothingLive | src/hcd_dma.c:487-513 | MapDpcsInFlight is the DPCs queued, running or being queued, and an idle reading means nothing is live. |
| MapPump.DoneDpcIsFree | src/hcd_dma.c:487-501 | The channel's release is never lost to a DPC already queued. |
| MapPump.Pump.StartLocked | src/hcd_dma.c:199-207 | It takes exactly the start step: the oldest record, or nothing if busy or empty; what was started and what waits is what was queued, in order. |
| MapPieces.MapChunk | src/hcd_dma.c:449-485 | A chunk maps exactly when every run is usable and the pages they touch fit 32 elements; then the list tiles it exactly, in order, none crossing a page. |
| MapPieces.CutAllTiles | src/hcd_dma.c:463-482 | The pieces of any runs cover their bytes exactly and in order, each within a page. |
| MapPieces.AddressesHold | src/hcd_dma.c:463-482 | Every byte of every piece is at the address its run gave for it. |
| MapPieces.OneAPage | src/hcd_dma.c:463-482 | A run is cut into one piece for each page it touches. |
| MapPieces.CutIsShortest | src/hcd_dma.c:463-482 | No list that covers a run in order within pages is shorter. |
| MapPieces.WholePagesFit | src/hcd_io.c:206-225 | Runs that break only where the buffer's pages do need one element for each page of the buffer, so a chunk of at most 32 pages always has room. |
| SaveGuard.AnySaveBusy | src/hcd_dev.c:829-892 | The walk is busy exactly when EP0, an endpoint or a stream of some slot has work. |
| SaveGuard.Controller.SaveBusy | src/hcd_dev.c:829-892 | Idle, the guard is armed at that instant. |
| SaveGuard.Controller.SaveCommit | src/hcd_dev.c:901-913 | The image is valid exactly when nothing was published since the check. |
| SaveGuard.Controller.SaveSpoiled | src/hcd_dev.c:920-931 | A restore is kept exactly when nothing was published from the check to the test, so no doorbell was dropped. |
| SaveGuard.Controller.BringUp | src/xhci_init.c:3800-3850 | INITIALIZED set after the test, whatever was published between the two, leaves no transfer on a ring whose doorbell was dropped. |
| SaveGuard.Controller.Run | src/hcd_dev.c:829-931 | For any interleaving a valid image was checked all idle and has had nothing published since, and a controller that is up has no transfer on a ring whose doorbell it dropped while halted; a suspend and resume that nothing publishes in, whose steps are all done and whose devices stay idle, goes through without losing a device. |

## Left out

- Acquisitions, not addresses: a ring acquired again after it was given back is another `Alloc`; that the pool hands out only free entries, and its per-device cap, are not modelled.
- The grant arithmetic of an isochronous page and the borrowed counts: the grant is the environment's choice.
- Context and TRB bit layouts, doorbell values, the Link TRB's chain bit and cycle bits of a ring.
- RESET_PORT's readdressing is one command that disables every endpoint; the resume's replay of a kept device (HcdCfgResumeReplay) is not modelled.
- A Disabled endpoint in the reset and cancel paths, isochronous and control endpoints there, and an owed device half together with open streams.
- RingOwner.Device.Command: relies on the thread's rule that nothing is issued or served after an unanswered command until the slot is gone (src/hcd_enum.c:130-136).
- XhciOwnSingleSetting, SELECT_CONFIGURATION parsing, interface information lengths, counters and log notes.
- The wide (promoted) transfers' record machine, HcdDmaMapDrain's polling, the register-free probe.
- CancelRing.TransferRing.StopSettle: a saved dequeue that is not on the line (a cycle bit, an address or a Link TRB that does not match) is one reading that cannot be read; a ring that refuses a retire is not modelled.
- PipeReset.Endpoint.Cancel: whether a doorbell may be rung - the device there, its link active, no truncation pending - is one parameter of the cancel.
- StreamResync.Resync: the gate before it (the quirk on, streams open and held), which answers clean with nothing done, is not modelled.
- The reinitialization after a failed resume is one step that drops every device and starts the controller.
- A flush's claims are modelled one IRP at a time, so the order in which a flush completes what it took is proved for the list walk alone (`TakeToTail`).
- XhaReadSet, the answer's layout and physical memory mapping of the firmware tables.
- PnP and power dispatch, timers, and any liveness that rests on the scheduler's fairness.
