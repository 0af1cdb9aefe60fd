# Verified models of the crawler firmware

The firmware of a two-wheel magnetic crawler has five small parts that carry its guarantees.
This project models them in Dafny 4.11 and proves those guarantees for all inputs, all runs and
all interleavings. `dafny verify dfyconfig.toml` checks everything. Nothing was executed.

- **Scheduling and notification.** `Scheduler` is the shared work queue as a state machine whose
  steps are the regions under its mutex; `SchedulerRuns` proves what every run of it guarantees
  (rate limit, heartbeat, bounded bypass, no oversleep, what a detach means, when items have a
  worker) and `DueTimes` exactly when an item is due, in terms of the events of the run alone.
  `WorkQueue` is the queue object over its linked items, proved to take those steps. `Orb` is the
  topic object with its eight callback slots. `Lifecycle` puts one module, its start and stop
  commands, any number of publishers and everything else on the queue together; `LifecycleProofs`
  and `LifecycleRuns` prove that no update is lost and that objects are deleted only when nothing
  can reach them, `LifecycleTrips` what a command does when nothing comes in between, and that a
  stop or a failure undoes a start.
- **Output.** `CanChannels` is the configuration of a channel and what an output becomes on the
  wire, `CanOutput` the CAN driver, `MixingOutput` the stage that routes logical controls to it,
  `CanTask` the loop that also reloads parameters. Every frame write may fail. Everything is
  stated on the driver's log of frames. `CanLog` keeps two ledgers over it: motors known to be
  enabled (enable accepted, no disable even offered since) and motors that may be enabled (enable
  offered, or possibly enabled at the start, no disable accepted since). Motion needs the first
  and stays within the configured limits; changing the configuration, zero and clear frames need
  the second to be empty. `OutputRuns` says what each update of a run must put on the bus and must
  not, for each action in case of a fault, in the numbers of the configuration and the messages.
- **Safety pipeline.** `Control` has Failsafe, RobotControl and the allocator as objects and
  functions; `Pipeline` interleaves their reads, clock samples and publications freely, with
  restarts, and proves the end-to-end staleness bound; `PipelineAge` says when the value driven is
  that young itself. `Arming` is the arming interlock and the module that publishes it, `ArmingRuns`
  exactly when what it publishes arms. `SafetyChain` runs these with the output: what stands behind
  every frame that moves a motor, in terms of the events of the run.
- **Parameters.** `Crc32`, `FlashPages` and `FlashStorage` are the two-page storage down to the
  bits that programming clears, `Crc32Numbers` the checksum as the RFC has it; `FlashRuns` proves what survives power loss. `Params` and
  `ParamManager` are the table and its snapshots, `ParamRuns` the two together with setters in
  between. `ModuleParams` is the forest of parameter owners, `ParamLinks` the intrusive
  lists and `ParamTree` the tree that is held in them.
- **RC input.** `SbusPacking` and `SbusDecoder` are the resynchronising frame decoder, proved
  against a scanner of the whole stream, which `SbusFrames` describes position by position;
  `RcConfig` is the channel calibration.

Conventions: times are microseconds of a positive clock that does not go back (the pipeline does
not even need that); an absent time stands for the largest 64-bit value and no sum of times
overflows 64 bits; floats are reals with overflow, infinities and NaN; words are their bits where
bits matter. Locks are taken to succeed.
Every run of a queued module polls each of its topics before it returns, as all of them do.

Four places where the code does less than one might expect, each with the exact condition:

- A load can return an earlier unacknowledged attempt rather than the last acknowledged snapshot
  or the one being attempted (`FlashRuns.EarlierAttemptReturns`; exactly when not:
  `FlashRuns.LastAttemptOnly`, `FlashRuns.LastAckedOrAttempted`).
- Changing a default twice can leave the store clean while a reload would change a value
  (`ParamRuns.DisagreementReachable`; exactly when not: `ParamRuns.DefaultChangeAgrees`).
- The staleness bound is on some sample, not on the age of the value driven
  (`Pipeline.OldValueCanDrive`). It is one on the value exactly when the last usable sample of
  RobotControl is at least as new as the one Failsafe judged (`PipelineAge.TargetAge`), and then
  over all runs (`PipelineAge.OwnSampleAge`).
- Attaching is two regions, and an item can end up on a queue without a worker
  (`SchedulerRuns.StrandedReachable`), which is so exactly when the queue does not count as
  started (`SchedulerRuns.AttachedHaveAWorker`).

## Model

| member | source | states |
|---|---|---|
| `Sbus.SbusDecoder.FeedAll` | robot/drivers/rc/sbus.cpp:46-86 | For every byte stream, however it is cut up, the decoder retains, counts and emits exactly what a scanner of the whole stream does |
| `Sbus.SbusDecoder.Feed` | robot/drivers/rc/sbus.cpp:46-86 | One byte extends the scan by one byte; a frame comes out exactly when the scan gains one, and it is that frame decoded |
| `Sbus.SbusDecoder.CompleteFrame` | robot/drivers/rc/sbus.cpp:71-86 | With 25 bytes: emit and count, or count an invalid frame and resynchronise; counters are 32 bits wide |
| `Sbus.SbusDecoder.Decode` | robot/drivers/rc/sbus.cpp:112-139 | A frame is accepted iff its start and end bytes are valid, and then all sixteen channels and both flags are the decoded ones |
| `Sbus.SbusDecoder.RecoverAfterInvalidFrame` | robot/drivers/rc/sbus.cpp:141-162 | What is kept is the suffix of the rejected frame from its next start byte on |
| `Sbus.SbusDecoder.Reset` | robot/drivers/rc/sbus.cpp:36-44 | A reset forgets the stream |
| `Sbus.ScanAppend` | robot/drivers/rc/sbus.cpp:46-86 | Scanning may stop anywhere and resume from the retained bytes: the scan of a concatenation is the scan of the parts |
| `Sbus.ScanSnoc` | robot/drivers/rc/sbus.cpp:46-86 | One more byte is skipped, kept, completes a frame, or rejects and resynchronises the retained bytes |
| `Sbus.FramingBytes` | robot/drivers/rc/sbus.cpp:10-21 | The start byte is 0x0f and the end bytes are 0x00, 0x04, 0x14, 0x24 and 0x34 |
| `Sbus.FlagBits` | robot/drivers/rc/sbus.cpp:135-137 | The flags are bits 2 and 3 of byte 23, and sixteen channels come with them |
| `Sbus.LostCounted` | robot/drivers/rc/sbus.cpp:78-83 | Frames count as lost by the receiver exactly when bit 2 of their byte 23 is set |
| `SbusFrames.ScanFinds` | robot/drivers/rc/sbus.cpp:46-162 | With no word of scanning: a frame comes out for every position that has a start byte, a valid end byte 24 on and no other frame under way; every other start byte outside of frames counts as invalid once 25 bytes are there; what is kept begins with the first that still waits |
| `Sbus.DecodeOfPacked` | robot/drivers/rc/sbus.cpp:23-27 | Packing sixteen values of 0..2047 and decoding gives each value scaled by 5/8, rounded to nearest |
| `SbusPacking.DecodeInvertsPack` | robot/drivers/rc/sbus.cpp:120-133 | Unpacking is the inverse of packing 11-bit values lowest bit first |
| `SbusPacking.PackInvertsDecode` | robot/drivers/rc/sbus.cpp:120-133 | The sixteen channels determine all 22 payload bytes |
| `SbusPacking.ChannelsDependOnPayload` | robot/drivers/rc/sbus.cpp:122-131 | Two frames carry the same channels iff bytes 1..22 agree, although byte 23 is read |
| `SbusPacking.RawToPwmRounds` | robot/drivers/rc/sbus.cpp:24-27 | The scaling rounds 5/8 to nearest and maps 0..2047 into 875..2154 |
| `Crc32.PolynomialValue` | robot/params/FlashParamStorage.cpp:45 | The polynomial of the model is 0xedb88320 |
| `Crc32.ComputeCrc` | robot/params/FlashParamStorage.cpp:35-50 | The nested bit loop computes the checksum as the register function defines it |
| `Crc32.AddByteLoop` | robot/params/FlashParamStorage.cpp:41-47 | Eight rounds with the mask trick are eight conditional polynomial steps |
| `Crc32.CrcIsTableDriven` | robot/params/FlashParamStorage.cpp:35-50 | The loop equals the table-driven CRC of section 8 of RFC 1952, for every input |
| `Crc32Numbers.CrcInNumbers` | robot/params/FlashParamStorage.cpp:35-50 | And it equals the sample code of that section written in numbers, rounds, table and complements, for every input |
| `Crc32.TableStep` | robot/params/FlashParamStorage.cpp:41-47 | One byte step is one table lookup |
| `Crc32.RegisterInjective` | robot/params/FlashParamStorage.cpp:38-48 | Feeding the same bytes keeps different register contents different |
| `Crc32.BurstDetected` | robot/params/FlashParamStorage.cpp:35-50 | Two equal-length inputs that differ only inside one window of at most 32 bits have different checksums |
| `Crc32.ByteBurstDetected` | robot/params/FlashParamStorage.cpp:35-50 | The same for a window of at most four bytes |
| `WorkQueues.WorkQueue.Schedule` | robot/work_queue/WorkQueue.cpp:160-173 | The region, on the linked items, does what the state machine says; a disabled item is left alone |
| `WorkQueues.WorkQueue.SetInterval` | robot/work_queue/WorkQueue.cpp:175-186 | Gives an attached item that is not stopping its interval and wakes the worker; what that means for when it runs is `DueTimes` |
| `WorkQueues.WorkQueue.Clear` | robot/work_queue/WorkQueue.cpp:188-195 | Drops request and period and always broadcasts |
| `WorkQueues.WorkQueue.Start` | robot/work_queue/WorkQueue.cpp:54-79 | The first region of an attach starts the worker unless it counts as started; it fails iff no thread can be had |
| `WorkQueues.WorkQueue.Attach` | robot/work_queue/WorkQueue.cpp:107-123 | The second region appends the item at the tail of the list unless it is attached already or the queue is being shut down |
| `WorkQueues.WorkQueue.Append` | robot/work_queue/WorkQueue.cpp:117-121 | The walk along the next pointers links the item behind the last one and disturbs no other link |
| `WorkQueues.WorkQueue.DetachBegin` | robot/work_queue/WorkQueue.cpp:126-142 | Disables the item unless it is not attached or the caller is the worker itself |
| `WorkQueues.WorkQueue.DetachPoll` | robot/work_queue/WorkQueue.cpp:143-158 | Gives up at the deadline while the item runs, else takes it off the list |
| `WorkQueues.WorkQueue.Remove` | robot/work_queue/WorkQueue.cpp:151-154 | The walk along the next pointers unlinks exactly that item, wherever it stands |
| `WorkQueues.WorkQueue.Scan` | robot/work_queue/WorkQueue.cpp:245-277 | Starts the selected item, sleeps until the next wake-up, or leaves |
| `WorkQueues.WorkQueue.Choose` | robot/work_queue/WorkQueue.cpp:249-265 | The scan along the next pointers finds the selected item and the wake-up time as specified |
| `WorkQueues.WorkQueue.FinishRun` | robot/work_queue/WorkQueue.cpp:278-283 | Ends the Run, counts it and keeps the longest run time, both in 64 bits |
| `WorkQueues.UnsignedWraps` | robot/work_queue/WorkQueue.cpp:278-283 | Counters and run times are kept modulo 2^64 |
| `WorkQueues.WorkQueue.Shutdown` | robot/work_queue/WorkQueue.cpp:81-87 | Refused while items are attached, nothing to do before a start, else the worker is asked to leave |
| `WorkQueues.WorkQueue.Join` | robot/work_queue/WorkQueue.cpp:88-101 | Once the worker has left the queue no longer counts as started, unless waiting for it failed |
| `Scheduler.SelectIsEarliest` | robot/work_queue/WorkQueue.cpp:249-265 | The selected item is due, no due item is earlier, and ties go to the one attached first; none selected iff none is due |
| `Scheduler.NextWakeIsMinimum` | robot/work_queue/WorkQueue.cpp:252-262 | The wake-up time is the minimum of all effective deadlines |
| `Scheduler.StepKeepsInv` | robot/work_queue/WorkQueue.cpp:54-195 | Every region keeps: ids unique, stopping items disabled, one item running and it is the worker's, no oversleep, no exit request while items are attached, and a started worker leaves only on request |
| `SchedulerRuns.NeverOversleeps` | robot/work_queue/WorkQueue.cpp:266-271 | In no reachable state is the worker asleep past an effective deadline unless a broadcast has been issued since |
| `SchedulerRuns.SleepsUntilEarliest` | robot/work_queue/WorkQueue.cpp:266-271 | It goes to sleep only when nothing is due, until exactly the earliest effective deadline |
| `SchedulerRuns.RequestsCoalesce` | robot/work_queue/WorkQueue.cpp:160-173 | After a request the item is due at the earlier of its old due time and the requested one held back by the minimum interval |
| `SchedulerRuns.RateLimit` | robot/work_queue/WorkQueue.cpp:160-186 | In any run from power-up, two starts of an item with no removal of it in between are at least its minimum interval apart, however many requests arrive |
| `SchedulerRuns.StartBeats` | robot/work_queue/WorkQueue.cpp:272-275 | A start of a periodic item establishes the heartbeat |
| `SchedulerRuns.Heartbeat` | robot/work_queue/WorkQueue.cpp:252-275 | Over every run that leaves the item alone, its next effective deadline is at most max(period, minimum interval) after its last start |
| `SchedulerRuns.BoundedBypass` | robot/work_queue/WorkQueue.cpp:249-275 | While an item is due and left alone, each other item starts at most once before it, and items attached later never overtake it |
| `SchedulerRuns.DueItemWaitsAtMostOneRound` | robot/work_queue/WorkQueue.cpp:249-275 | With positive intervals fewer starts than attached items happen before a due item starts, all of distinct items attached now |
| `SchedulerRuns.DueItemKeepsWorkerAwake` | robot/work_queue/WorkQueue.cpp:264-271 | While an item is due every scan starts something |
| `SchedulerRuns.WorkerGetsToIt` | robot/work_queue/WorkQueue.cpp:240-285 | Whatever the worker is at, once its sleep or Run has ended the next scan starts an item if one is due |
| `DueTimes.DueExactly` | robot/work_queue/WorkQueue.cpp:160-283 | In every run from power-up an attached item is due by t iff it was given an interval and is not being detached, its minimum interval has passed since its last start, and a request since then, or its last interval counted from when it was given and from that start, says so: every condition one on the events |
| `DueTimes.IntervalBeats` | robot/work_queue/WorkQueue.cpp:175-186 | After an interval p the item is due by the larger of p and its minimum interval after the later of that event and its last start, as long as it is left alone |
| `DueTimes.NotBeforeInterval` | robot/work_queue/WorkQueue.cpp:252-257 | And without a request not before p has passed since that event and every start after it |
| `SchedulerRuns.NoRunAfterDetach` | robot/work_queue/WorkQueue.cpp:126-158 | After a detach request, timed out or not, no continuation starts the item unless it is attached anew |
| `SchedulerRuns.NoRunAfterClear` | robot/work_queue/WorkQueue.cpp:188-195 | After a clear no continuation starts the item unless it is requested or given an interval again |
| `SchedulerRuns.DetachWaitsForRun` | robot/work_queue/WorkQueue.cpp:145-156 | An item is never taken off the list during its Run, and always at any other time |
| `SchedulerRuns.AttachedHaveAWorker` | robot/work_queue/WorkQueue.cpp:54-124 | In every reachable state with items attached there is a worker iff the queue counts as started |
| `SchedulerRuns.StrandedReachable` | robot/work_queue/WorkQueue.cpp:104-107 | A run that attaches an item to a queue without a worker: a shutdown and a failing start come between the two regions of the attach |
| `Orb.Topic.Store` | robot/orb/uORB.hpp:48-54 | Stores the message and counts one publication in a wrapping 32-bit generation; to the state machine of the lifecycle it is the store of a publisher |
| `Orb.Topic.Notify` | robot/orb/uORB.hpp:57-61 | Every registered callback is called exactly once, which is the second region of a publisher begun, run and ended |
| `Orb.Topic.RegisterCallback` | robot/orb/uORB.hpp:64-72 | Succeeds iff already registered or a slot is free; nobody is registered twice; the registered set gains the callback |
| `Orb.Topic.UnregisterCallback` | robot/orb/uORB.hpp:74-79 | Removes exactly that callback |
| `Orb.Topic.Update` | robot/orb/uORB.hpp:81-94 | A subscriber fewer than 2^32 publications behind gets the latest message iff it has missed one |
| `Orb.MissesOnlyWholeWraps` | robot/orb/uORB.hpp:81-94 | A reader mistakes new data for old iff it is behind by a multiple of 2^32 |
| `LifecycleRuns.AtMostOneObject` | robot/common/ModuleBase.hpp:199-259 | In every interleaving at most one object of a module is alive, and worker, publishers and status can reach only it |
| `LifecycleRuns.DeletedOnlyWhenUnreachable` | robot/common/ModuleBase.hpp:241-259 | An object is deleted only when it is off the list, not running, registered nowhere and about to be called by no publisher |
| `LifecycleRuns.TimedOutStopRetires` | robot/common/ModuleBase.hpp:246-259 | A stop that timed out keeps the object published and alive and gives up the stop flag |
| `LifecycleRuns.RetiredForever` | robot/common/WorkQueueModuleBase.hpp:43-48 | From then on it never starts another Run, in any continuation |
| `LifecycleRuns.NoLostUpdate` | robot/orb/SubscriptionCallback.hpp:27 | In every reachable state in which the object is enabled, whatever commands are at work, unread data on a topic it is registered with means a pending request, a Run yet to poll it, a publisher between storing and calling back, or a start command about to make the first request |
| `LifecycleRuns.UpIsRegistered` | robot/common/WorkQueueModuleBase.hpp:13-32 | With no command at work an enabled object is registered with every topic |
| `LifecycleTrips.StartSetsUp` | robot/common/WorkQueueModuleBase.hpp:13-32 | A start that nothing comes in between of leaves the object published and registered with every topic, and its item last on the list, enabled, requested for now and with its interval |
| `LifecycleTrips.StopTakesDown` | robot/common/ModuleBase.hpp:239-259 | A stop takes exactly the object, its registrations and its item away |
| `LifecycleTrips.StopGivesUp` | robot/common/ModuleBase.hpp:246-258 | A stop that runs out of time during a Run keeps the object published and alive, registered nowhere and its item disabled on the list |
| `LifecycleTrips.StopUndoesStart` | robot/common/WorkQueueModuleBase.hpp:13-48 | A start and a stop after it leave objects, topics and list as they were |
| `LifecycleTrips.FailureUndoesStart` | robot/common/WorkQueueModuleBase.hpp:19-25 | So does a start that finds some topic without a free slot |
| `LifecycleTrips.RunReadsAll` | robot/orb/SubscriptionCallback.hpp:27 | A Run that polls every topic has read the latest of each, and its return leaves the worker free |
| `LifecycleTrips.MessageArrives` | robot/orb/uORB.hpp:48-61 | A stored message makes the registered, enabled object due at once, or when its minimum interval is over |
| `LifecycleProofs.StartKeeps` | robot/common/WorkQueueModuleBase.hpp:13-32 | Each step of a start, and of its failure paths, keeps the invariant; a failed start is detached at once because its item was never enabled |
| `LifecycleProofs.StopKeeps` | robot/common/ModuleBase.hpp:221-259 | Each step of a stop keeps the invariant, between any steps of others |
| `LifecycleProofs.BackgroundKeeps` | robot/orb/uORB.hpp:46-94 | So do publishers, polls and whatever else happens on the queue |
| `CanLog.MotionOnlyToEnabled` | robot/output/CanOutput.cpp:208-256 | Each motion frame goes to a motor whose enable frame was accepted, with no disable frame even offered to it in between |
| `CanLog.StandstillOnlyWhenDisabled` | robot/output/CanOutput.cpp:278-298 | Configuration is replaced, and zero and clear frames are sent, only after every motor ever offered an enable frame, or possibly enabled at the start, has accepted a later disable frame |
| `CanLog.EnabledMeans` | robot/output/CanOutput.cpp:231-236 | What the ledger of enabled motors says about the log of frames |
| `CanLog.MayMoveMeans` | robot/output/CanOutput.cpp:216-229 | What the ledger of possibly enabled motors says about it |
| `CanLog.MotionWithinLimits` | robot/output/CanOutput.cpp:422-443 | Every motion frame of a safe log carries a speed or position within the limits of a channel of the configuration then in force |
| `CanOutputs.CanOutput.Stop` | robot/output/CanOutput.cpp:216-229 | Success leaves no motor that may be enabled; failure leaves the retry flag set; the frames of a stop never drive and offer every configured motor a disable |
| `CanOutputs.CanOutput.Drive` | robot/output/CanOutput.cpp:230-256 | Refused without a frame while parameters are invalid or a disable is owed; every other frame enables an assigned channel or carries exactly its own output; success means each assigned motor is enabled and took it |
| `CanOutputs.CanOutput.DisableAll` | robot/output/CanOutput.cpp:558-577 | Disable frames reach all four channels; none is skipped after a failure |
| `CanOutputs.CanOutput.EnableAssigned` | robot/output/CanOutput.cpp:558-577 | Enable frames go to assigned channels and no others; success means every assigned motor is enabled |
| `CanOutputs.CanOutput.SendSpecial` | robot/output/CanOutput.cpp:579-619 | One frame to the identifier of the configured mode, none for a disabled channel |
| `CanOutputs.CanOutput.SendOne` | robot/output/CanOutput.cpp:408-451 | At most one motion frame, carrying the channel's own output, and only in the one mode each kind of actuator is driven in; a product that is not finite sends nothing |
| `CanChannels.MotorCommand` | robot/output/CanOutput.cpp:425-434 | Exactly which motor outputs can be encoded, and as what: that share of the largest speed, the other way round if reversed, outputs beyond 1 as the nearer end |
| `CanChannels.ServoCommand` | robot/output/CanOutput.cpp:435-445 | The same for servos: the mean of the limits weighted by 1 - x and 1 + x, so the minimum at -1 and the maximum at 1, mirrored if reversed |
| `CanChannels.ServoTurnsFurther` | robot/output/CanOutput.cpp:438-441 | The position grows strictly with the output, or falls if reversed |
| `CanChannels.PayloadWithinLimits` | robot/output/CanOutput.cpp:422-443 | Whatever the output, what a loaded channel is commanded is finite and within its speed and position limits |
| `CanOutputs.CanOutput.Manage` | robot/output/CanOutput.cpp:173-183 | Zero and clear pass the gate only when inhibited, disarmed, locked and with the driver disarmed for certain |
| `CanOutputs.CanOutput.RefreshParameters` | robot/output/CanOutput.cpp:309-336 | All four channels are replaced or none |
| `CanChannels.LoadChannel` | robot/output/CanOutput.cpp:394-405 | A channel that loads has a frame identifier of at most 0x7ff, a direction of 1 or -1 and ordered limits |
| `CanChannels.LoadsExactly` | robot/output/CanOutput.cpp:339-406 | Which stored values load, in numbers, iff; and what identifier, mode, direction and limits they load as |
| `CanOutputs.KindNumbers` | robot/output/CanOutput.hpp:65-67 | Two motor channels, then two servo channels |
| `CanTasks.CanTask.Run` | robot/output/CanOutput.cpp:278-307 | Every run, with any write failures, messages, parameter changes and commands of other tasks, keeps the log of frames safe and the update history sound, with every frame that drives accounted for by an update; it gains one update for each cycle, in order, on the messages brought by then; and from the cycle of an announced change on nothing drives but with parameters that loaded since |
| `CanTasks.CanTask.Cycle` | robot/output/CanOutput.cpp:278-307 | One reload and one update on the messages received; an announced change is in force afterwards or a reload is still owed; with nothing announced or owed the configuration stays; while parameters do not count as valid no frame drives |
| `CanTasks.CanTask.Reload` | robot/output/CanOutput.cpp:284-296 | After a notified change either a reload is owed and nothing is driven, or the new channels, functions and action are all in force |
| `CanTasks.CanTask.StopAndUpdate` | robot/output/CanOutput.cpp:287-296 | Stop first; only if that worked are parameters read |
| `CanTasks.Instantiate` | robot/output/CanOutput.cpp:189-205 | The driver comes up iff the device opens and the configuration loads, assuming any configured motor may be enabled |
| `MixingOutputs.FaultWindow` | robot/output/MixingOutput.cpp:163-172 | With action 2, while a fault lasts from update i to update j, every entry of the log in that stretch, of the updates or between them, that can move a motor was put there by an update that found the fault less than 500 ms old, and enables it or commands zero |
| `MixingOutputs.FaultHalts` | robot/output/MixingOutput.cpp:163-172 | By the end of each update that finds the fault 500 ms old no motor may move, or each has been offered a disable by it |
| `MixingOutputs.DrivesOnlyWhenPermitted` | robot/output/MixingOutput.cpp:153-161 | Entry n of the driver log, if it can move a motor, was put there by an update with an armed, unlocked safety state at most 500 ms old, and carries what that update had for an assigned channel |
| `MixingOutputs.AppendedOnce` | robot/output/MixingOutput.cpp:146-189 | No entry is put there by two updates |
| `MixingOutputs.FaultStartBound` | robot/output/MixingOutput.cpp:164-165 | The recorded start of a fault is no later than any update the fault has lasted through |
| `MixingOutputs.MixingOutput.Update` | robot/output/MixingOutput.cpp:146-189 | The frames of the update are those of the observation it adds: zeros or the exact clamped routing and only when permitted; the driver is called at once on a change, when it is stopped but may drive, and every 20 ms otherwise; an update not permitted to drive that reports success leaves no motor that may be enabled |
| `OutputRuns.FaultActions` | robot/output/MixingOutput.cpp:163-189 | In any run, for a fault that began at update i: with action 0 or an unknown one the update stops the driver at once; with 1 it goes on commanding zero every 20 ms or on a change; with 2 it does so until the fault is 500 ms old and then stops the driver |
| `OutputRuns.LiveUpdate` | robot/output/MixingOutput.cpp:174-189 | An update that may drive and lacks nothing commands each assigned channel what its own control says, at the latest every 20 ms; it fails only if the driver could not be asked, a frame was refused or a command not encodable, and then halts |
| `OutputRuns.IdleUpdate` | robot/output/MixingOutput.cpp:153-161 | An update that may not drive puts no driving frame on the bus and stops the driver unless that was done less than 20 ms ago; success means no motor may move |
| `OutputRuns.FaultExactly` | robot/output/MixingOutput.cpp:90-121 | An update that may drive counts as faulty iff some channel's motor or servo message is invalid, older than 500 ms, not yet due or without a finite control for it |
| `OutputRuns.DrivingMeans` | robot/output/MixingOutput.cpp:153-189 | Every frame that can move a motor is of an update that may drive and for a channel with a function, and enables it or commands what its control, or the fault, says |
| `OutputRuns.FunctionNumbers` | robot/output/OutputFunction.hpp:11-42 | 101 + i is motor i and 201 + i servo i, in 16 bits |
| `MixingOutputs.MixingOutput.DriveOutputs` | robot/output/MixingOutput.cpp:178-188 | On the log of the driver: success means every assigned channel took its output, and after any failure every motor that may move has been offered a disable |
| `MixingOutputs.MixingOutput.Idle` | robot/output/MixingOutput.cpp:153-161 | No frame that drives is sent; a stop is skipped only when nothing changed and the last call, less than 20 ms ago, was a stop that succeeded |
| `MixingOutputs.MixingOutput.SourceDataValid` | robot/output/MixingOutput.cpp:91-121 | Valid iff each kind in use is valid and fresh and each assigned control exists and is finite |
| `MixingOutputs.MixingOutput.FillPhysicalOutputs` | robot/output/MixingOutput.cpp:123-136 | Each slot gets its function's control, clamped, or zero |
| `MixingOutputs.MixingOutput.UpdateParams` | robot/output/MixingOutput.cpp:42-70 | An unreadable or unknown function number disables its channel; numbers are taken modulo 2^16 |
| `MixingOutputs.Routed` | robot/output/MixingOutput.cpp:131-133 | What is routed lies in [-1,1] |
| `Pipeline.EndToEndStaleness` | robot/modules/RobotControl.cpp:106-131 | For every interleaving of the stages, a motor value other than zero at time T has a published valid sample no older than the timeout plus 1.5 s behind it |
| `Pipeline.BoundIsTight` | robot/modules/RobotControl.cpp:106-131 | For every timeout there is a run in which a motor is driven on a single sample exactly that old |
| `Pipeline.OldValueCanDrive` | robot/modules/RobotControl.cpp:99-104 | That bound is not one on the value itself: an arbitrarily old throttle can drive a motor while a newer neutral sample keeps Failsafe quiet |
| `PipelineAge.TargetAge` | robot/modules/RobotControl.cpp:99-131 | It is one on every target published on the strength of a judged sample iff the last usable sample is at least as new as the judged one |
| `PipelineAge.OwnSampleAge` | robot/modules/RobotControl.cpp:99-131 | In every run in which RobotControl is that far in step with Failsafe whenever it publishes, a motor value other than zero is the throttle of the published sample whose time the message carries, scaled by that motor's coefficient out of those given to the allocator and clamped, and the sample is no older than the timeout plus 1.5 s |
| `Pipeline.StepKeepsInv` | robot/modules/ControlAllocator.cpp:122-146 | Every step of every stage keeps every message that can move a motor backed by a recent sample |
| `Control.MotorNeedsThrottle` | robot/control/Allocation.cpp:45-63 | Yaw alone moves no motor |
| `Control.EachByItsCoefficient` | robot/control/ActuatorEffectivenessDualMagneticWheel.cpp:18-27 | Front and rear wheels answer to throttle, front and rear steering to yaw, each by its own coefficient |
| `Control.AllocatesShares` | robot/control/Allocation.cpp:33-64 | With coefficients that load: valid messages iff the inputs are and no product overflows, and then each of the four outputs is its own coefficient times throttle or yaw, clamped |
| `Control.Allocation.Allocate` | robot/control/Allocation.cpp:32-64 | Each control is its clamped response, or nothing is valid |
| `Control.Allocation.AllocateRows` | robot/control/Allocation.cpp:45-63 | One response that overflows discards everything |
| `Control.Allocation.UpdateParameters` | robot/control/Allocation.cpp:14-24 | A matrix that does not load keeps the old one, marked invalid |
| `Control.LoadsIfFinite` | robot/control/ActuatorEffectivenessDualMagneticWheel.cpp:19-34 | Coefficients load iff all four are finite |
| `Control.Refreshed` | robot/control/ActuatorEffectivenessDualMagneticWheel.cpp:19-34 | Motor rows always have a zero yaw coefficient |
| `Control.ControlAllocator.Run` | robot/modules/ControlAllocator.cpp:122-146 | A stale or invalid target, or a changed model number, yields nothing valid; what a parameter update does to validity and matrix; the messages carry the target's sample time |
| `Control.Failsafe.Update` | robot/modules/Failsafe.cpp:58-76 | Takes over a usable timeout; active unless a valid sample, not from the future, is within it |
| `Control.Failsafe.RefreshPolicy` | robot/modules/Failsafe.cpp:49-56 | A timeout is taken over iff it lies between 50 ms and 10 s |
| `Control.RobotControl.Update` | robot/modules/RobotControl.cpp:76-134 | Normal input passes; a stale, missing or active failsafe status applies the policy to the last valid input |
| `Control.ApplyAction` | robot/modules/RobotControl.cpp:52-58 | The result is finite and within [-1,1], and zero for any action but hold and fixed |
| `Control.TargetExactly` | robot/modules/RobotControl.cpp:106-131 | What the target is in every case: when the failsafe counts as active, and what each action number then makes of speed and steering |
| `Arming.ArmedMeans` | robot/control/ArmSafety.hpp:37-74 | Armed iff the latest valid observation since reset is on and a valid off preceded it |
| `Arming.WaitsUntilOff` | robot/control/ArmSafety.hpp:46-53 | It waits for off iff no valid off has been seen |
| `Arming.ArmSafety.Update` | robot/control/ArmSafety.hpp:37-74 | The interlock follows the observations |
| `Arming.Command.Update` | robot/modules/Command.cpp:129-165 | The published message is armed iff that holds since the switch number last changed and output is not inhibited, and valid iff the switch is readable; the sightings grow by where the switch is found |
| `Arming.PositionNumbers` | robot/modules/Command.cpp:115-127 | The switch is on iff it reads as 1, in the middle iff as 2, off iff as 3, with both messages valid, sampled and at most 500 ms old and the switch one of the twelve; else nowhere |
| `Arming.Command.UpdateSafety` | robot/modules/Command.cpp:129-165 | The reminder comes iff the switch is readable, not off and has not been off, at most every five seconds |
| `Arming.Command.UpdateParameters` | robot/modules/Command.cpp:102-112 | A changed switch number demands a new off; an unchanged one does not |
| `ArmingRuns.ArmedExactly` | robot/modules/Command.cpp:102-165 | Over every run of updates and restarts, the message last published is armed iff it is that of an update with output not inhibited, the switch was found on at some update and nowhere at any since, and off at an earlier one, with no restart and no change of the switch number since then |
| `SafetyChain.DriveRestsOnArming` | robot/output/MixingOutput.cpp:153-161 | Behind entry n of the log, if it can move a motor, stands the last update of the command module before the cycle that put the entry there, at most 500 ms old, not inhibited, with the switch on and off before it at updates of the run in just that way |
| `SafetyChain.MovingFrameIsBacked` | robot/modules/RobotControl.cpp:106-131 | Behind every motion frame that carries a motor output other than zero stands a valid sample published, in the run, before the cycle that put the frame there and no older than the timeout plus 1.5 s by then |
| `SafetyChain.MovingFrameIsOwn` | robot/modules/RobotControl.cpp:99-131 | With RobotControl in step with Failsafe, the frame carries the scaled throttle of a published sample that is that young itself |
| `SafetyChain.Chain.Run` | robot/output/MixingOutput.cpp:141-161 | Over every interleaving of the command module, its restarts, all stages and the output task, the updates are those of the cycles in order, each on the safety state last published and the motor message delivered by then, as the events before it determine them |
| `FlashRuns.LoadReturnsSurvivor` | robot/params/FlashParamStorage.cpp:69-158 | After any run of saves, failures, power losses and reboots a load returns exactly the latest completed try not wiped since, else what was last acknowledged or loaded |
| `FlashRuns.PowerLossSafe` | robot/params/FlashParamStorage.cpp:69-158 | So it is the last acknowledged snapshot or one attempted since, and never nothing once a save was acknowledged |
| `FlashRuns.BothValid` | robot/params/FlashParamStorage.cpp:53-56 | Two valid pages have neighbouring sequence numbers, also at the wrap, and the later one is loaded |
| `FlashRuns.LastAttemptOnly` | robot/params/FlashParamStorage.cpp:104-116 | The narrower promise, last known or the one being attempted, holds iff the attempt got past its erase or found no completed try on its page |
| `FlashRuns.LastAckedOrAttempted` | robot/params/FlashParamStorage.cpp:69-158 | The promise of the last acknowledged snapshot or the last attempted one, exactly when: always if the last try completed; if it wiped, or was kept out and found no completed try, iff what was loaded is the acknowledged one; if it found one, iff that is the same or the acknowledged one. Loads neither break nor restore it |
| `FlashRuns.EarlierAttemptReturns` | robot/params/FlashParamStorage.cpp:104-116 | A run in which it fails |
| `FlashRuns.NewerNext` | robot/params/FlashParamStorage.cpp:53-56 | The successor of a sequence number is newer and not the other way round, also at the wrap |
| `FlashRuns.NewerAhead` | robot/params/FlashParamStorage.cpp:53-56 | A counter k steps ahead is newer iff 0 < k < 2^31 |
| `FlashStorage.FlashParamStorage.Save` | robot/params/FlashParamStorage.cpp:89-158 | Whatever the device does, the other page is untouched and the target is as before, invalid, or exactly the new snapshot; success iff it is stored and active |
| `FlashStorage.FlashParamStorage.Program` | robot/params/FlashParamStorage.cpp:112-154 | Erase, header, payload, commit word, read back |
| `FlashStorage.FlashParamStorage.Load` | robot/params/FlashParamStorage.cpp:69-87 | Picks the newer valid page |
| `FlashPages.UncommittedInvalid` | robot/params/FlashParamStorage.cpp:126 | Without the commit word no page validates |
| `FlashPages.CompleteRoundTrip` | robot/params/FlashParamStorage.cpp:160-203 | A complete page yields exactly the snapshot that was written |
| `FlashPages.CommitInterrupted` | robot/params/FlashParamStorage.cpp:141-147 | While the commit word is programmed the page is invalid or complete |
| `FlashPages.ValidMeans` | robot/params/FlashParamStorage.cpp:160-203 | A page that validates has the payload and the checksum it claims |
| `FlashPages.ValidExactly` | robot/params/FlashParamStorage.cpp:160-203 | Which pages validate, iff, field by field in numbers, and as which snapshot |
| `ParamRuns.CleanMeansStored` | robot/params/ParamManager.cpp:259-348 | Over all runs with setters interleaved, failing saves and power loss: when idle and not dirty, a reload would give exactly the current values, provided default changes made while clean replace no default that the storage holds |
| `ParamRuns.DefaultChangeAgrees` | robot/params/ParamManager.cpp:457-488 | A default change of a clean store keeps that agreement iff the storage does not hold the replaced default for the parameter |
| `ParamRuns.DisagreementReachable` | robot/params/ParamManager.cpp:470-482 | A run in which it is lost |
| `ParamRuns.SaveAlone` | robot/params/ParamManager.cpp:259-307 | An undisturbed save leaves the store clean and the storage with exactly the values that differ from their defaults |
| `ParamRuns.LoadAlone` | robot/params/ParamManager.cpp:310-348 | An undisturbed load leaves the store clean and each parameter with what the storage holds for it, or its default; in a clean store that changes nothing |
| `ParamRuns.BootAlone` | robot/params/ParamManager.cpp:25-77 | So does power-up |
| `ParamRuns.ResetSavesNothing` | robot/params/ParamManager.cpp:225-257 | A reset gives every parameter its default; an undisturbed save after it stores no record and a load then gives the defaults again |
| `ParamRuns.StepKeepsInv` | robot/params/ParamManager.cpp:205-348 | Every region keeps what the operations under way rely on |
| `ParamRuns.SnapshotHolds` | robot/params/ParamManager.cpp:501-521 | The payload of a snapshot reads back as the records it was made from |
| `Params.SnapshotRoundTrip` | robot/params/ParamManager.cpp:501-545 | Making a snapshot and applying it to the defaults undo each other for distinct names |
| `Params.AppliedIsHeld` | robot/params/ParamManager.cpp:524-545 | Applying records gives each parameter what they hold for it and leaves the others |
| `Params.HeldIs` | robot/params/ParamManager.cpp:524-545 | What records hold for a parameter is the last one of its name and kind |
| `Params.MadeHolds` | robot/params/ParamManager.cpp:501-521 | A snapshot holds a parameter iff its value differs from the default |
| `Params.PayloadRoundTrip` | robot/params/ParamTypes.hpp:45-51 | Records survive their 24-byte image |
| `ParamManagers.ParamManager.SetRaw` | robot/params/ParamManager.cpp:426-454 | A value already there is no change; wrong handle or type is refused |
| `ParamManagers.ParamManager.SetDefaultRaw` | robot/params/ParamManager.cpp:457-488 | A value equal to the old default follows the new one |
| `ParamManagers.ParamManager.ResetAll` | robot/params/ParamManager.cpp:225-257 | Every value becomes its default; one change and dirty iff some value differed |
| `ParamManagers.ParamManager.MakeSnapshot` | robot/params/ParamManager.cpp:501-521 | The loop makes the records of the specification |
| `ParamManagers.ParamManager.ApplySnapshot` | robot/params/ParamManager.cpp:524-545 | The nested loops apply them |
| `ParamManagers.ParamManager.BeginSave` | robot/params/ParamManager.cpp:260-280 | Nothing to do when clean; else captures the snapshot and the generation |
| `ParamManagers.ParamManager.EndSave` | robot/params/ParamManager.cpp:287-303 | Dirty is cleared only if the generation is still the captured one |
| `ParamManagers.ParamManager.EndLoad` | robot/params/ParamManager.cpp:328-344 | Defaults first, then the snapshot, and clean |
| `ParamManagers.ParamManager.EndBoot` | robot/params/ParamManager.cpp:63-74 | At power-up the snapshot goes on top of what is there |
| `ParamManagers.ParamManager.Find` | robot/params/ParamManager.cpp:79-102 | The first parameter of exactly that name |
| `ModuleParams.UpdatesOnce` | robot/params/ModuleParams.cpp:70-85 | The events of an update contain every parameter below the node exactly once and no other |
| `ParamTrees.ParamTree.UpdateTree` | robot/params/ModuleParams.cpp:70-85 | An update of a node runs the update of every parameter below it exactly once more and of no other, and succeeds iff all it ran did |
| `ModuleParams.SiblingsDisjoint` | robot/params/ModuleParams.cpp:79-83 | Different children have nothing below them in common |
| `ParamTrees.ParamTree.UpdateParams` | robot/params/ModuleParams.cpp:70-85 | It terminates; what it runs is, in order, the node's parameters, its hook and its children; the result is true iff all of it succeeded |
| `ParamTrees.ParamTree.SetParent` | robot/params/ModuleParams.cpp:18-24 | Moving a node to a place not below it changes exactly its own link and the two lists, and keeps every node and parameter on exactly one list exactly once |
| `ParamTrees.ParamTree.Construct` | robot/params/ModuleParams.cpp:8-11 | Adds the node and one link, nothing else, and keeps that too |
| `ParamTrees.ParamTree.Destroy` | robot/params/ModuleParams.cpp:13-16 | Removes a node without children and its one link, nothing else |
| `ParamTrees.ParamTree.UnregisterChild` | robot/params/ModuleParams.cpp:55-68 | Exactly the one link is removed |
| `ParamTrees.ParamTree.RegisterParam` | robot/params/ModuleParams.cpp:26-31 | The parameter comes first on its owner's list |
| `ParamTrees.ParamTree.UnregisterParam` | robot/params/ModuleParams.cpp:33-46 | The parameter is off the list |
| `ParamTrees.ParamTree.UpdateOwn` | robot/params/ModuleParams.cpp:73-77 | The walk along the parameter links updates exactly the parameters of the list, in order |
| `ParamTrees.ParamTree.UpdateChildren` | robot/params/ModuleParams.cpp:79-83 | The walk along the sibling links updates exactly the children of the list, in order |
| `ParamLinks.LinkTable.Insert` | robot/params/ModuleParams.cpp:26-31 | Linking through the objects themselves puts one in front of its list and leaves every other list alone |
| `ParamLinks.LinkTable.Remove` | robot/params/ModuleParams.cpp:55-68 | The walk along the links takes exactly that object off the list, if it is on it, and leaves every other list alone |
| `RcConfig.Monotone` | robot/modules/RcConfig.cpp:171-204 | For every calibration the value never falls as the pulse grows, or never rises when reversed |
| `RcConfig.ZeroOnDeadband` | robot/modules/RcConfig.cpp:184-195 | With a valid calibration the value is zero iff the pulse is in the deadband |
| `RcConfig.ExtremesAtLimits` | robot/modules/RcConfig.cpp:184-201 | It is at one extreme iff at or below the minimum and at the other iff at or above the maximum |
| `RcConfig.LinearBetween` | robot/modules/RcConfig.cpp:184-195 | In between it is proportional to the distance from the deadband, on each side by its own scale |
| `RcConfig.Normalize` | robot/modules/RcConfig.cpp:197-203 | Always within [-1,1] |
| `RcConfig.WideDeadbandIsDead` | robot/modules/RcConfig.cpp:188-195 | The validity condition is needed: a deadband that reaches a limit kills that half, and a calibration out of order gives nothing |

## Left out

- WorkQueues.WorkQueue.Shutdown: waiting for the worker is not a loop here, `Join` is the region
  after it; Attach, Detach and Shutdown are methods for each of their regions, and the status
  query is left out.
- LifecycleRuns.NoLostUpdate: modelled on values, because commands, publishers and the worker are
  interleaved between the regions of one call; generations are not wrapped there
  (`Orb.MissesOnlyWholeWraps` says what wrapping can do); one module and its topics at a time,
  with all other users of the queue as arbitrary steps.
- LifecycleRuns.DeletedOnlyWhenUnreachable: the messages a stopped module publishes are steps of
  other topics' publishers; lock failures and the destructor's own unregistration are left out.
- Pipeline.EndToEndStaleness: modelled on values, because the stages are interleaved between
  their reads and publications; the timeout is fixed and the motor action during a failsafe is
  neither hold nor fixed value, other parameters are arbitrary.
- CanOutputs.CanOutput.SendOne: the encoding of a payload into bytes, and rounding; the receive
  path, status messages and statistics.
- CanTasks.Instantiate: the disable frames of the destructor. Motors left
  enabled by an earlier driver under another configuration are outside the assumption.
- CanTasks.CanTask.Run: replacing channels and functions is one step; no other task sends frames
  that depend on them in between.
- MixingOutputs.MixingOutput.UpdateParams: finding the parameters by name.
- Control.RobotControl.Update: reading parameters; their values come in as arguments.
- FlashStorage.FlashParamStorage.Save: an interrupted erase is assumed to leave the old page or
  one that does not validate; page numbers and addresses of the device are one yes-or-no answer.
- ParamRuns.CleanMeansStored: storage operations do not overlap, since the code does not order
  two of them; fewer than 2^32 changes happen during a save; default changes of a clean store
  replace no default that the storage holds, which `ParamRuns.DefaultChangeAgrees` shows is needed.
- ParamManagers.ParamManager.SetRaw: typed getters and setters, notifications and the autosave
  timer; names are 17 bytes padded with zeros.
- ParamTrees.ParamTree.UpdateParams: an update or a hook leaves a mark in the log and succeeds or
  not; what else it does is not modelled. The links are held in maps from objects to pointers.
- RcConfig.Monotone: over the reals, without rounding; mapping of functions to channels and the
  switch thresholds.
- Serial port, CAN and flash drivers, threads, condition variables, priorities, console commands,
  parameter tables and RC message assembly.
- The forced termination of dedicated tasks.
