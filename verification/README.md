# Models of the Galaxy Tab S9 Ultra port's stateful code

This project models the parts of the port that keep state, share it or parse it: kernel
drivers, the NPU client and session scripts, and the small tools that rewrite or build
binary images. Each module is one component. Where a driver or script updates fields,
buffers or files step by step, the model is a class or a loop with the same steps; its
contracts say what a caller can rely on and tie it to functions over plain values, and the
main theorems are about whole runs of those. `dafny verify dfyconfig.toml` checks everything.

| component | modules | main results |
|---|---|---|
| GLINK shared-memory ring | `GlinkRing`, `GlinkInterleaving` | the ring refines a byte queue, also while writer and reader interleave at every load, store and copied byte |
| NPU client slots | `NpuClients`, `NpuScripts` | every attached client has followed its own script, no service stop under a client, the exact condition of the client bound, no deadlock, for any number of processes running either script or the installer |
| Panel fingerprint modes | `PanelState`, `PanelGood`, `PanelDriver`, `PanelRuns` | nested modes, the watchdog's deadline, brightness registers, under every interleaving and bus failure |
| Secure-processor heap | `SpHeap`, `SpHeapDriver` | every page is free, in one live buffer or quarantined, and exactly the unreclaimed ones are quarantined, for ever |
| Response parsing, image assembly | `Der`, `Gatekeeper`, `GatekeeperFrame`, `TaImage` | the length reader inverts length octets, exactly the well-formed frames are read and give the first wanted payload, segments read back |
| iommu-map rewrite | `PinText`, `PinMap`, `PinParts` | all-or-nothing, idempotent, lossless, and only the entries change |
| DT table | `DtTable` | a built table reads back as exactly its payloads |
| Library closure | `Resolver`, `RuntimeFile` | least closed set; exact success conditions |
| NPU session | `NpuSession` | the unwinding leaves nothing behind, in the right order, from every fault position |
| Fingerprint sensor power | `FingerprintPower`, `FingerprintPowerDriver` | regulator balance, batches, removal, lifetime |
| Camera sensor | `CameraSensor` | exactly which lost writes let the exposure outgrow the frame; resources held exactly while streaming |
| Secure-processor events and interrupt | `SpssEvents`, `SpssEventsDriver`, `SpssIrq` | flags agree with completions, no lost interrupt |
| Tensor sizes and names, lens ramps | `Tensor`, `Lens` | exact element limit, injective names, exact smoothness of the ramps from any lens position |

## How to read the models

Failures are inputs. A bus write, an SCM call, a `systemctl` call or a spawned process gets
its outcome from an argument (`Bus`, `AllocEnv`, `Answers`, `Env`, `Faults`), and the
theorems hold for every choice. Runs are sequences of states and events related by
`Enabled` and `Next`; a theorem over runs takes any run and any index into it.

Assumptions:

- GLINK: a caller writes at most what its last look at the free space showed, and peeks or
  advances within the bytes it has seen available; that caller is not part of this model.
  Memory is sequentially consistent: the new head becomes visible after the copied bytes.
- NPU clients: one read, one truncation and one flushed write of the counter file are
  atomic, each by itself. A process that dies behaves like one that raises, and a client
  and the child it started end together: a client killed outright drops its lock while its
  detached child may still be using the NPU, which the model does not show. systemd runs
  one job at a time, a newer job replacing an older one, and the service counts as active
  only once it is up. `Interrupt` is an exception that is not an `Exception`: it releases
  the counter, while the users file may stay open for a while.
- Panel: the callback bodies run under the driver's mutex. DRM does not overlap prepare,
  enable, disable and unprepare, each including its trailing cancel. A timer fires on time;
  its handler may wait for the mutex for any length of time. A failed write may or may not
  have reached the panel, and power-on resets its registers. The circle register answers
  only while its level key is open.
- Heap: an SCM assignment moves all of its pages or none, and the CMA area returns only
  pages it considers free.
- Session: the calls of the cleanup block succeed, and the boot clock does not run backwards.
- Camera: when an exposure or vblank write fails the V4L2 core keeps the control's old
  value. A modified range sets an exposure outside it to its end, which is itself such a
  write and may fail.
- iommu map: the file's text is what Python reads and writes in text mode, so a CRLF line
  end comes back as LF.
- Events: `complete_all` and `reinit_completion` are atomic; a waiter that is woken looks
  at the completion again before it goes on.

## Where the code and its promise differ

- **Counter file.** Both acquire functions truncate the counter before they write it. A
  process that dies in between leaves an empty file, which reads as 0, so the stored count
  can fall below the number of attached clients. From boot or from any start of the service
  the bound holds throughout exactly if no writer dies there while clients are attached:
  `NpuClients.BoundHoldsIff`. `NpuClients.TornWriteBreaksTheBound` is a run from boot.
- **Leaving fingerprint mode.** The flags are cleared whatever the bus does. After a lost
  leave sequence a later, successful backlight update sets the brightness level while the
  control register keeps the fingerprint setting: `PanelRuns.LostLeaveSurvivesBacklight`;
  `PanelState.LeaveRestoresIff` says which writes have to succeed.
- **Vertical blanking.** The exposure range moves before the frame length is written, and
  neither result of the range change is looked at. A failed raise leaves the range wider
  than the frame, and a lowering whose clamp of the exposure is lost leaves the exposure
  longer than it: `CameraSensor.StepGoodIff` and `CameraSensor.RunFitsIff` are the exact
  condition, `CameraSensor.LostRaiseBreaksExposure` and
  `CameraSensor.LostClampBreaksExposure` the runs.
- **Secure-processor events.** A signal does not release a waiter that gets to run only
  after the next reset (`SpssEvents.WaiterGoesOnIff`, with the run
  `SpssEvents.SignaledWaiterSleepsOn`), and user space can set both power events
  (`SpssEvents.UserSignalSetsBothIff`, with the run `SpssEvents.UserSetsBoth`).
- **Lens.** The requested position is stored before it is written, and the suspend ramp
  starts from the request: after a failed request it begins with a jump
  (`Lens.LostRequestJumps`). It also goes on after a failed write, so the next one that
  works moves further. `Lens.RampDownSmoothIff` and `Lens.RampDownParksIff` are exact for
  every lens position and every pattern of failures.

## Model

| member | source | states |
|---|---|---|
| `GlinkRing.Pipe.RxAvail` | kernel/drivers/qcom_glink_spss.c:61-74 | the result is the number of unconsumed stream bytes |
| `GlinkRing.Pipe.TxAvail` | kernel/drivers/qcom_glink_spss.c:111-132 | the free space is the ring minus both reserves minus the unread bytes, or 0 when that is negative |
| `GlinkRing.Pipe.RxPeek` | kernel/drivers/qcom_glink_spss.c:76-94 | one or two copies deliver the ring's bytes from tail + offset on, across the wrap, and change nothing past them |
| `GlinkRing.Pipe.PeekReturnsStream` | kernel/drivers/qcom_glink_spss.c:76-94 | inside the available bytes, those are the unread stream at that offset |
| `GlinkRing.Pipe.RxAdvance` | kernel/drivers/qcom_glink_spss.c:96-109 | exactly that many unread bytes are consumed; the stream and the head stay |
| `GlinkRing.Pipe.TxWriteOne` | kernel/drivers/qcom_glink_spss.c:134-152 | exactly the cells from the given position on get the data, round the end, and no other cell changes |
| `GlinkRing.Pipe.TxWrite` | kernel/drivers/qcom_glink_spss.c:154-175 | within the free space, unread bytes survive, the stream grows by header, data and less than 8 bytes of padding, the head stays aligned and the reserve free |
| `GlinkRing.PaddingLength` | kernel/drivers/qcom_glink_spss.c:166-169 | aligning the new head, across the wrap too, adds the padding of the length written |
| `GlinkRing.SliceAfterWrite` | kernel/drivers/qcom_glink_spss.c:134-175 | after both pieces are laid down the reader finds the old bytes, header, data and padding in this order |
| `GlinkRing.WriteExtends` | kernel/drivers/qcom_glink_spss.c:154-175 | a write inside the free space takes what the ring holds to what it held followed by header, data and padding |
| `GlinkInterleaving.PublishAppends` | kernel/drivers/qcom_glink_spss.c:154-175 | storing the head last publishes the whole message copied so far, and its padding |
| `GlinkInterleaving.CopyByte` | kernel/drivers/qcom_glink_spss.c:134-152 | a byte copied by an unfinished write leaves unread bytes and those already copied alone |
| `GlinkInterleaving.StepKeepsInv` | kernel/drivers/qcom_glink_spss.c:61-175 | every step of writer or reader keeps the ring equal to the unconsumed stream plus the unpublished copy behind the head |
| `GlinkInterleaving.RunKeepsInv` | kernel/drivers/qcom_glink_spss.c:61-175 | so does every interleaving from the empty ring |
| `GlinkInterleaving.ReaderSeesTheStream` | kernel/drivers/qcom_glink_spss.c:61-109 | in every reachable state the bytes between tail and head are the unconsumed stream, every byte peeked so far is the stream's, and stale head or tail values only under-estimate |
| `GlinkInterleaving.RefinesQueue` | kernel/drivers/qcom_glink_spss.c:76-175 | only the head store appends, by the message and its padding; only an advance consumes |
| `GlinkInterleaving.WriteAppends` | kernel/drivers/qcom_glink_spss.c:154-175 | a write, from its own header and data to its head store and however interleaved, appends the header, then the data, then the exact padding, in one step |
| `GlinkInterleaving.PeekDelivers` | kernel/drivers/qcom_glink_spss.c:76-94 | a finished peek holds exactly the stream bytes at the offset and of the count it was asked for |
| `GlinkInterleaving.LooksAreExact` | kernel/drivers/qcom_glink_spss.c:61-132 | each look at the shared words finds exactly the unread bytes or the free space of that moment |
| `NpuClients.StepKeepsInv` | scripts/gts9u-ai.py:29-59 | every step of any process, of systemd or of a fault keeps the lock, counter and service invariant |
| `NpuClients.RunKeepsInv` | scripts/gts9u-npu-app.py:32-70 | so does every run from boot, both scripts and the installer mixed |
| `NpuClients.NeverStopsUnderAClient` | scripts/gts9u-ai.py:40-47 | while a stop is queued or under way nobody holds the users lock shared, although the exclusive-to-shared conversion is not atomic |
| `NpuClients.AttachedWithinLimit` | scripts/gts9u-ai.py:35-53 | clients attached since the service came up are at most the stored count while the counter is free, and at most the limit always, unless a writer died between truncate and flush since then with clients attached |
| `NpuClients.BoundHoldsIff` | scripts/gts9u-ai.py:49-59 | over every run from boot or from a start of the service, the bound holds at every state up to n if and only if no writer died between truncate and flush while clients were attached |
| `NpuClients.TornIff` | scripts/gts9u-npu-app.py:60-70 | the bound is given up exactly between such a death and the next start of the service |
| `NpuClients.TornWriteBreaksTheBound` | scripts/gts9u-ai.py:50-53 | a run from boot that ends with an attached client and a count of 0 |
| `NpuClients.BlockedAdvances` | scripts/gts9u-npu-app.py:46-54 | a counter holder blocked on the users lock waits only for processes that can let go |
| `NpuClients.OwnerAdvances` | scripts/gts9u-npu-app.py:35-70 | whoever holds the counter can be brought closer to releasing it, wherever it is |
| `NpuClients.NoDeadlock` | scripts/gts9u-ai.py:29-59 | while any process is busy some step that is no fault is possible and brings everybody closer to done |
| `NpuClients.AlwaysCanFinish` | scripts/gts9u-npu-app.py:32-70 | from every good state all processes can run to completion without a fault |
| `NpuClients.EveryReachableStateCanFinish` | scripts/install-npu-apps.sh:11-12 | and from every reachable one, the installer's non-blocking lock included |
| `NpuScripts.AttachesByScript` | scripts/gts9u-npu-app.py:32-70 | in every run a client that attaches has done exactly the steps of its own script for the state and count it found, and leaves that count plus one, or 1 after starting the service |
| `NpuScripts.OnlyAiStops` | scripts/gts9u-ai.py:39-43 | only the ai script asks for a stop, and only after finding the service up and the counter at the limit |
| `NpuScripts.OnlyAppRefuses` | scripts/gts9u-npu-app.py:42-45 | only the app refuses, and only then, and a refusing process can do nothing but raise |
| `NpuScripts.AtTheLimit` | scripts/gts9u-ai.py:39-43 | at the limit the ai client can only take the users lock exclusively and then ask for the stop, the app only raise |
| `NpuScripts.RunFollows` | scripts/gts9u-ai.py:29-59 | at every moment a process has done exactly the steps that lead to where it is |
| `PanelState.MultiCleanIff` | kernel/drivers/panel-samsung-ana38407.c:158-188 | a multi-write sequence succeeds exactly when none of its writes failed |
| `PanelState.FodSequenceEffect` | kernel/drivers/panel-samsung-ana38407.c:146-188 | the enter and leave sequences set exactly the control and level registers and close the key they opened |
| `PanelState.PowerOnEffect` | kernel/drivers/panel-samsung-ana38407.c:275-428 | after a reset the init sequence leaves an awake, dark panel with both keys closed, normal control and the user's brightness |
| `PanelState.LightEffect` | kernel/drivers/panel-samsung-ana38407.c:443-449 | the enable sequence lights the panel and closes the key |
| `PanelState.LeaveRestoresIff` | kernel/drivers/panel-samsung-ana38407.c:158-188 | exactly which of the leave writes have to succeed or take effect for both registers to be restored, for every user brightness |
| `PanelDriver.Panel.SendAll` | kernel/drivers/panel-samsung-ana38407.c:158-188 | writing one command after another, skipping after the first error, is the sequence's function |
| `PanelGood.FodSequenceClean` | kernel/drivers/panel-samsung-ana38407.c:158-188 | success of a mode sequence is reported exactly when no write was lost, and then both brightness registers are those of the mode and the others untouched |
| `PanelGood.CircleClean` | kernel/drivers/panel-samsung-ana38407.c:202-226 | success of a circle sequence is reported exactly when no write was lost; the circle is as asked if its own writes arrive, the key closed if the relock does |
| `PanelDriver.Panel.FodCleanup` | kernel/drivers/panel-samsung-ana38407.c:228-247 | both flags end up clear, success on a clean panel means the circle register is off, each half arrives independently of the other, and a lost write is always reported |
| `PanelGood.StoreModeGood` | kernel/drivers/panel-samsung-ana38407.c:659-699 | a successful mode store leaves the mode as asked and the watchdog 15 s ahead exactly while it is on; a failed one leaves both modes off and rolls a failed entry back; the panel stays good |
| `PanelDriver.Panel.PowerOn` | kernel/drivers/panel-samsung-ana38407.c:108-127 | all supplies or, with the first one released again, none |
| `PanelDriver.Panel.OnPrepare` | kernel/drivers/panel-samsung-ana38407.c:493-528 | success and a prepared panel are the same; a fresh one shows the user's brightness in normal control; a failure keeps no supply |
| `PanelDriver.Panel.OnEnable` | kernel/drivers/panel-samsung-ana38407.c:430-456 | success and an enabled panel are the same and mean it is lit, brightness and circle do not change, and nothing but a lost write makes it fail on a prepared panel |
| `PanelDriver.Panel.OnDisable` | kernel/drivers/panel-samsung-ana38407.c:458-480 | the panel ends disabled and out of both modes whatever fails, dark unless that write was lost, and a lost write is always reported |
| `PanelDriver.Panel.OnUnprepare` | kernel/drivers/panel-samsung-ana38407.c:530-551 | the panel ends unprepared, out of both modes and without supplies whatever fails, asleep before unless that write was lost, and a lost write is always reported |
| `PanelDriver.Panel.OnBacklight` | kernel/drivers/panel-samsung-ana38407.c:612-630 | the user's value is remembered, fingerprint mode is not disturbed, success outside it means the register holds the value |
| `PanelDriver.Panel.OnFodMode` | kernel/drivers/panel-samsung-ana38407.c:659-699 | afterwards the mode is on exactly if it was asked for and the store succeeded, with the watchdog armed; refused without any change on a panel that is off |
| `PanelDriver.Panel.OnFodCircle` | kernel/drivers/panel-samsung-ana38407.c:714-751 | the circle is as asked after success and as before after failure, never touches the mode, and needs fingerprint mode to be switched on |
| `PanelDriver.Panel.OnWatchdog` | kernel/drivers/panel-samsung-ana38407.c:249-268 | both modes end, whatever the bus does, and the panel stays good |
| `PanelGood.CleanupGood` | kernel/drivers/panel-samsung-ana38407.c:228-247 | the clean-up keeps modes nested and registers agreeing, switches the circle off and brightness back independently, touches nothing else and reports every lost write |
| `PanelGood.StoreCircleGood` | kernel/drivers/panel-samsung-ana38407.c:714-751 | a circle store keeps the panel good and the flag as before unless it succeeds, and rolls a failed switch-on back |
| `PanelGood.PrepareGood` | kernel/drivers/panel-samsung-ana38407.c:493-528 | prepare keeps the panel good whatever fails in it, and a failure changes no state |
| `PanelGood.UnprepareGood` | kernel/drivers/panel-samsung-ana38407.c:530-551 | so does unprepare, which leaves neither mode nor supply |
| `PanelRuns.RunKeepsInv` | kernel/drivers/panel-samsung-ana38407.c:228-751 | every interleaving of callbacks, stores, backlight, watchdog and removal keeps the invariant |
| `PanelRuns.ModesAlwaysNested` | kernel/drivers/panel-samsung-ana38407.c:430-551 | circle implies fingerprint mode implies enabled implies prepared, and supplies are on exactly while prepared, in every reachable state |
| `PanelRuns.FingerprintModeEnds` | kernel/drivers/panel-samsung-ana38407.c:249-268 | until removal begins, fingerprint mode lasts at most the timeout after the last store that armed the watchdog, except for a handler waiting for the lock, and the handler ends it |
| `PanelRuns.StoreWithinTimeout` | kernel/drivers/panel-samsung-ana38407.c:637-751 | the same in terms of steps alone: a panel in fingerprint mode has seen a store within the timeout |
| `PanelRuns.WatchdogQuiet` | kernel/drivers/panel-samsung-ana38407.c:458-551 | when disable or unprepare returns, and after removal, the watchdog is neither pending nor running |
| `PanelRuns.BrightnessFollowsUser` | kernel/drivers/panel-samsung-ana38407.c:612-630 | if no write failed since power-on the level register is the user's value outside fingerprint mode and 1623 inside, the circle register follows the circle flag, the panel is lit exactly while enabled and both keys are closed |
| `PanelRuns.LostLeaveSurvivesBacklight` | kernel/drivers/panel-samsung-ana38407.c:228-247 | after a lost leave, a successful backlight update leaves the fingerprint control value in place |
| `SpHeap.AllocateTakes` | kernel/drivers/qcom_sp_hlos_heap.c:263-365 | success takes exactly the frames from the returned one on, as many as the aligned size needs, lists them in order, clears them and moves no other page |
| `SpHeap.AllocateReturns` | kernel/drivers/qcom_sp_hlos_heap.c:353-364 | failure gives all of them back unless reclaiming failed after export did, and then exactly they are gone |
| `SpHeap.AllocateMoves` | kernel/drivers/qcom_sp_hlos_heap.c:263-365 | both together |
| `SpHeap.AllocateResult` | kernel/drivers/qcom_sp_hlos_heap.c:290-363 | each error is reported exactly when its step is the first to fail |
| `SpHeap.RunLists` | kernel/drivers/qcom_sp_hlos_heap.c:313-314 | the page table lists n distinct, contiguous frames in order |
| `SpHeap.ReleaseMoves` | kernel/drivers/qcom_sp_hlos_heap.c:219-248 | a release frees exactly the buffer's pages or quarantines exactly them |
| `SpHeap.StepKeepsInv` | kernel/drivers/qcom_sp_hlos_heap.c:219-365 | buffers stay disjoint and outside the free pool; free pages are HLOS's alone and all others shared |
| `SpHeap.EveryPageAccountedFor` | kernel/drivers/qcom_sp_hlos_heap.c:219-365 | after every run each page is in exactly one of pool, one live buffer, quarantine, and unshared exactly in the pool |
| `SpHeap.StepQuarantines` | kernel/drivers/qcom_sp_hlos_heap.c:219-365 | a step adds to the quarantine exactly the pages it could not reclaim |
| `SpHeap.QuarantinedIff` | kernel/drivers/qcom_sp_hlos_heap.c:219-365 | after every run a page is in quarantine if and only if an earlier release or failed export could not reclaim it |
| `SpHeap.QuarantineIsForever` | kernel/drivers/qcom_sp_hlos_heap.c:235-243 | quarantine only grows over every run |
| `SpHeapDriver.Heap.OnAllocate` | kernel/drivers/qcom_sp_hlos_heap.c:263-365 | the error ladder of the driver is `SpHeap.Allocate`, state and result |
| `SpHeapDriver.Heap.OnRelease` | kernel/drivers/qcom_sp_hlos_heap.c:219-248 | the buffer's pages are all freed or all quarantined, no other page moves, and ownership and disjointness hold afterwards |
| `SpHeapDriver.Heap.ClearPages` | kernel/drivers/qcom_sp_hlos_heap.c:301-306 | page by page or at once, exactly the frames from the first to the last of the buffer are cleared |
| `SpHeapDriver.Heap.FillPages` | kernel/drivers/qcom_sp_hlos_heap.c:308-314 | entry k of the page table is frame first + k |
| `Der.DerLength` | scripts/probe-qtee-load-securefp.c:526-548 | accumulating in a machine word computes the unbounded value: it never wraps |
| `Der.LengthInvertsOctets` | scripts/probe-qtee-load-securefp.c:526-548 | every value in every form of section 8.1.3 of ITU-T X.690 that fits a word is read back |
| `Der.AcceptedIsEncoded` | scripts/probe-qtee-load-securefp.c:526-548 | nothing else is accepted, and an accepted length has its content in the buffer |
| `Gatekeeper.OpenFrame` | scripts/probe-qtee-load-securefp.c:560-567 | the bounds of the elements as read from the prefix and the sequence header, inside the frame |
| `Gatekeeper.PayloadStart` | scripts/probe-qtee-load-securefp.c:578-584 | the inner test holds exactly for one octet string of the wanted size filling the content |
| `Gatekeeper.SearchLoop` | scripts/probe-qtee-load-securefp.c:567-589 | the loop over offsets finds what the recursive reader of the elements finds |
| `Gatekeeper.ExtractOctet` | scripts/probe-qtee-load-securefp.c:550-592 | it ends, stays inside the frame and returns the recursive search's result |
| `Gatekeeper.SearchFindsFirst` | scripts/probe-qtee-load-securefp.c:568-589 | on encoded elements the payload of the first one that matches is found, byte for byte |
| `Gatekeeper.SearchFindsNone` | scripts/probe-qtee-load-securefp.c:568-589 | and nothing when none matches |
| `Gatekeeper.WantedIsOctetString` | scripts/probe-qtee-load-securefp.c:578-583 | a matching content is exactly an octet-string header, in any length form, and its payload |
| `GatekeeperFrame.LittleEndianIff` | scripts/probe-qtee-load-securefp.c:562 | the declared length is the number whose base-256 digits the prefix holds, least significant first |
| `GatekeeperFrame.FrameIsRead` | scripts/probe-qtee-load-securefp.c:560-567 | of every well-formed frame, whatever follows it, exactly the body is searched |
| `GatekeeperFrame.OnlyFramesAreRead` | scripts/probe-qtee-load-securefp.c:560-567 | and nothing else is accepted |
| `GatekeeperFrame.FrameFindsFirst` | scripts/probe-qtee-load-securefp.c:550-590 | from a whole frame of elements comes the payload of the first one that matches, byte for byte |
| `GatekeeperFrame.FrameFindsNone` | scripts/probe-qtee-load-securefp.c:550-590 | and nothing if none matches |
| `GatekeeperFrame.SearchSound` | scripts/probe-qtee-load-securefp.c:567-589 | on any bytes, what is found ends a well-formed matching element behind well-formed ones that do not match |
| `TaImage.CheckSizes` | scripts/probe-qtee-load-securefp.c:158-168 | refuses exactly the offsets whose segment would end past the largest machine word |
| `TaImage.Fill` | scripts/probe-qtee-load-securefp.c:177-193 | succeeds exactly when every segment lies inside the image; later segments overwrite earlier ones and gaps are zero |
| `TaImage.Assemble` | scripts/probe-qtee-load-securefp.c:116-200 | the exact conditions of success, the size, and every byte of the image |
| `TaImage.SegmentReadsBack` | scripts/probe-qtee-load-securefp.c:183-193 | a segment that no later one overlaps is in the image whole at its offset |
| `PinText.PatternsMarked` | scripts/pin-sm8550-pcie-iommu-map.py:17-19 | an entry holds no second `&`, so no entry overlaps itself or another |
| `PinText.PatternsApart` | scripts/pin-sm8550-pcie-iommu-map.py:17-19 | no old or new entry of any stream is a prefix of a different entry |
| `PinText.CountAround` | scripts/pin-sm8550-pcie-iommu-map.py:20-22 | the count of any entry around another one is the sum of the counts beside it |
| `PinText.Locate` | scripts/pin-sm8550-pcie-iommu-map.py:20-22 | replacing the only occurrence changes nothing around it |
| `PinMap.File.Pin` | scripts/pin-sm8550-pcie-iommu-map.py:14-30 | four new entries are all rewritten, four old ones are left, and every other text raises with the file unchanged |
| `PinMap.ReplaceOne` | scripts/pin-sm8550-pcie-iommu-map.py:21-23 | rewriting one stream makes it old, leaves the other streams' counts alone and can be undone |
| `PinMap.ReplaceBack` | scripts/pin-sm8550-pcie-iommu-map.py:21-23 | putting the entry back gives the original text |
| `PinMap.PinnedSoFar` | scripts/pin-sm8550-pcie-iommu-map.py:14-30 | after n streams the first n are old, the rest new, and undoing them gives the original text |
| `PinMap.PinIsIdempotentAndLossless` | scripts/pin-sm8550-pcie-iommu-map.py:14-30 | a restored file is recognised as restored, is 16 characters shorter and determines the original |
| `PinParts.PinnedRespells` | scripts/pin-sm8550-pcie-iommu-map.py:17-23 | for any text, pinning streams one after another respells their entries where they stand and keeps every other character |
| `PinParts.OnlyEntriesChange` | scripts/pin-sm8550-pcie-iommu-map.py:14-30 | a rewritten text is its own characters around exactly one entry per stream, before and after |
| `DtTable.CheckOverlays` | scripts/make-android-dtbo.py:21-24 | the index of the first payload that is no device-tree blob |
| `DtTable.Layout` | scripts/make-android-dtbo.py:26-37 | the loop lays out entries and padded data, failing only when the table is too long for 32-bit fields |
| `DtTable.Build` | scripts/make-android-dtbo.py:21-41 | the exact errors: a payload that is no overlay, or a total of 2^32 or more; otherwise the image |
| `DtTable.ReadsBack` | scripts/make-android-dtbo.py:26-41 | reading the image through its header and entries gives exactly the payloads, and the header total is the file's length |
| `DtTable.OffsetsAlignedAndDisjoint` | scripts/make-android-dtbo.py:29-37 | payloads start 4-aligned after the entries, in order and without overlap |
| `DtTable.PackedWord` | scripts/make-android-dtbo.py:32-40 | each packed big-endian word is read back |
| `DtTable.HeaderFields` | scripts/make-android-dtbo.py:38-41 | all eight header words at their places |
| `DtTable.EntryFields` | scripts/make-android-dtbo.py:32-33 | an entry holds size, offset and six zero words |
| `DtTable.PayloadsPacked` | scripts/make-android-dtbo.py:29-37 | each payload starts where the one before ends, rounded up to four bytes, with zeros between |
| `Resolver.AddNeeded` | scripts/build-migration-backend.py:57-66 | one file's needed names become known, new ones are resolved and queued, and an error is raised only if the closure is incomplete |
| `Resolver.Close` | scripts/build-migration-backend.py:45-66 | the worklist ends, succeeds exactly when everything reachable is an arm64 file and every wanted name resolves, and then knows the wanted names and no others |
| `Resolver.ExportLibraries` | scripts/build-migration-backend.py:45-68 | the result is that closure and the loader |
| `Resolver.ClosedHoldsPath` | scripts/build-migration-backend.py:48-66 | any closed set with the programs holds everything reachable: the result is the least one |
| `RuntimeFile.RootFile` | scripts/build-migration-backend.py:20-31 | a file is returned exactly for a chain of fewer than 64 links that ends inside the root; the two errors are told apart exactly |
| `RuntimeFile.ChainEndsOnce` | scripts/build-migration-backend.py:20-31 | the end found is the only one the chain has |
| `RuntimeFile.CycleNeverEnds` | scripts/build-migration-backend.py:31 | a chain that revisits a path never ends, so it is reported as a loop |
| `NpuSession.Session.Load` | scripts/run-npu-session.py:71-78 | a module is remembered only after it was inserted; one already present is an error |
| `NpuSession.Session.LoadAndSpawn` | scripts/run-npu-session.py:87-111 | exactly the modules and children of the steps before the first fault |
| `NpuSession.Session.StartCdsp` | scripts/run-npu-session.py:112-113 | `started` is set before the request, which may take effect even if it fails |
| `NpuSession.Session.Serve` | scripts/run-npu-session.py:114-138 | however the main loop ends, the session still tracks what it has started |
| `NpuSession.Session.KillChildren` | scripts/run-npu-session.py:146-150 | with the CDSP down, every child still alive ends, once, and no other |
| `NpuSession.Session.RemoveModules` | scripts/run-npu-session.py:153-154 | the transient modules go in reverse load order, all of them |
| `NpuSession.Session.Unwind` | scripts/run-npu-session.py:139-159 | the CDSP is stopped first, and no CDSP, child or transient module is left; the stamp is written if it was started |
| `NpuSession.Session.Run` | scripts/run-npu-session.py:61-159 | for every fault position: the exact trace, nothing left behind, no child killed while the CDSP is up, no CDSP start within 60 s of the last stop |
| `NpuSession.StaysOrderly` | scripts/run-npu-session.py:139-154 | what keeps kill and start order right when the trace grows |
| `NpuSession.NothingFails` | scripts/run-npu-session.py:87-138 | without faults: both transient modules in order, three children, one CDSP start, the self-test in place of the bootstrap traffic |
| `NpuSession.FirstFaultCuts` | scripts/run-npu-session.py:87-138 | the first fault, at each of its fifteen places, cuts that off right there |
| `NpuSession.StopCuts` | scripts/run-npu-session.py:109-117 | a stop request ends startup before the start or the wait after it |
| `NpuSession.SettleExact` | scripts/run-npu-session.py:64-69 | the wait is exactly what is missing from 60 s since the last stop |
| `NpuSession.FaultFreeUnwinds` | scripts/run-npu-session.py:139-154 | the fault-free session ends with the stop, then the children, then the modules in reverse |
| `FingerprintPowerDriver.Companion.SwitchOn` | kernel/drivers/egis_el721.c:191-228 | success and a powered sensor are the same, and every early exit has released the rail again |
| `FingerprintPowerDriver.Companion.PrepareHardware` | kernel/drivers/egis_el721.c:118-189 | success means the supply and the enable line are held; no handle once taken is lost and no line level changes |
| `FingerprintPowerDriver.Companion.SwitchOff` | kernel/drivers/egis_el721.c:230-243 | the sensor is off with balance 0 and, if it was on, both lines low |
| `FingerprintPowerDriver.Companion.Pulse` | kernel/drivers/egis_el721.c:245-256 | succeeds exactly while powered, then the enable line is high and the count one more modulo 2^32; otherwise nothing changes |
| `FingerprintPowerDriver.Companion.Execute` | kernel/drivers/egis_el721.c:269-320 | len 1 powers on, len 0 off, no other request changes power; each setting changes by its own request only; an error changes no setting; the rail balance is kept |
| `FingerprintPowerDriver.Companion.OnIoctl` | kernel/drivers/egis_el721.c:322-365 | the checks in order, then the batch up to its first error; balance kept, and nothing changes while removing |
| `FingerprintPowerDriver.Companion.OnStorePower` | kernel/drivers/egis_el721.c:462-485 | success means the asked-for state and its balance, failure the old one; refused without any change while removing |
| `FingerprintPowerDriver.Companion.OnRemove` | kernel/drivers/egis_el721.c:614-647 | the sensor is being removed, off, and with balance 0 |
| `FingerprintPower.FailedRunChangesNoSetting` | kernel/drivers/egis_el721.c:269-320 | a transfer that reports an error has changed no setting |
| `FingerprintPower.PowerOnIff` | kernel/drivers/egis_el721.c:191-228 | switching on succeeds exactly if every missing handle can be taken and the rail and lines driven, and then all are on |
| `FingerprintPower.RunPowers` | kernel/drivers/egis_el721.c:269-320 | what power, reset and model requests do and report, by length and state |
| `FingerprintPower.RunChanges` | kernel/drivers/egis_el721.c:282-297 | which request changes clock, SPI value, type and reset count |
| `FingerprintPower.RunIgnores` | kernel/drivers/egis_el721.c:286-319 | every other opcode changes nothing, and exactly the known ones succeed |
| `FingerprintPower.IoctlRefuses` | kernel/drivers/egis_el721.c:322-352 | the checks before a batch, in order, each with its error |
| `FingerprintPower.CallbackEffects` | kernel/drivers/egis_el721.c:367-662 | opening works until removal begins; suspend, shutdown and removal switch off |
| `FingerprintPower.BatchIsLongestGoodPrefix` | kernel/drivers/egis_el721.c:355-359 | a batch leaves the settings of its longest error-free prefix and reports the error right behind it |
| `FingerprintPower.BatchKeepsBalance` | kernel/drivers/egis_el721.c:355-359 | a batch keeps the regulator balance |
| `FingerprintPower.StepKeepsInv` | kernel/drivers/egis_el721.c:191-662 | so do all ioctls, stores, suspend, shutdown, removal, open and close |
| `FingerprintPower.RailBalanceIsPowered` | kernel/drivers/egis_el721.c:191-243 | after every run the enable balance is 1 exactly while powered and 0 otherwise |
| `FingerprintPower.RemovingIsOffForever` | kernel/drivers/egis_el721.c:614-662 | once removing, the sensor is off in every later state |
| `FingerprintPower.NoUseAfterFree` | kernel/drivers/egis_el721.c:367-392 | the structure is freed exactly when unbound with no open file, and no callback can find it freed |
| `CameraSensor.StepGoodIff` | kernel/drivers/hi1337_gts9u.c:274-306 | a control step keeps exposure and range inside the frame if and only if it is neither a lost raise nor a lost clamp |
| `CameraSensor.WhatBreaks` | kernel/drivers/hi1337_gts9u.c:274-306 | the lost clamp is what breaks the exposure, the lost raise what breaks the range |
| `CameraSensor.VblankTakesEffect` | kernel/drivers/hi1337_gts9u.c:274-306 | a vblank request moves the range to the new frame, keeps an exposure inside it, and takes effect exactly if written |
| `CameraSensor.WideRangeBreaksExposure` | kernel/drivers/hi1337_gts9u.c:274-306 | a range wider than the frame is exactly one that lets a too long exposure through |
| `CameraSensor.ExposureAlwaysFits` | kernel/drivers/hi1337_gts9u.c:274-342 | without lost raises and clamps, 4 <= exposure <= height + vblank - 4 and a frame length of at most 0x7fff in every reachable state |
| `CameraSensor.RunFitsIff` | kernel/drivers/hi1337_gts9u.c:274-342 | exactly the runs without them keep exposure and range inside the frame throughout |
| `CameraSensor.LostRaiseBreaksExposure` | kernel/drivers/hi1337_gts9u.c:274-306 | a run with one failed raise that ends with an exposure longer than the frame |
| `CameraSensor.LostClampBreaksExposure` | kernel/drivers/hi1337_gts9u.c:283-295 | a run without any that ends so because the clamp's write was lost |
| `CameraSensor.Sensor.PowerOn` | kernel/drivers/hi1337_gts9u.c:170-226 | everything is held after success and nothing after any failure |
| `CameraSensor.Sensor.PowerOff` | kernel/drivers/hi1337_gts9u.c:228-243 | nothing is held afterwards, also when called twice |
| `CameraSensor.Sensor.StartStreaming` | kernel/drivers/hi1337_gts9u.c:371-397 | streaming is set exactly on success |
| `CameraSensor.Sensor.SetStream` | kernel/drivers/hi1337_gts9u.c:399-425 | supplies, clock and lines are held exactly while streaming; a start succeeds exactly when nothing fails and a stop always stops |
| `SpssEventsDriver.Tables.OnStart` | kernel/drivers/spss_utils.c:67-78 | POWER_UP raised, POWER_DOWN reset, in completion and flag alike |
| `SpssEventsDriver.Tables.OnStop` | kernel/drivers/spss_utils.c:80-90 | every event is reset |
| `SpssEventsDriver.Tables.OnUnprepare` | kernel/drivers/spss_utils.c:92-101 | POWER_DOWN raised, POWER_UP reset |
| `SpssEventsDriver.Tables.SignalEvent` | kernel/drivers/spss_utils.c:133-151 | accepted exactly for a known, unsignaled event, and then raises only that one |
| `SpssEventsDriver.Tables.IsEventSignaled` | kernel/drivers/spss_utils.c:153-165 | the flag it reads answers exactly whether a wait for the event would return at once; refused past the last event |
| `SpssEvents.FlagsAgreeWhenUnlocked` | kernel/drivers/spss_utils.c:49-60 | whenever the lock is free each flag agrees with its completion |
| `SpssEvents.SectionLeaves` | kernel/drivers/spss_utils.c:67-151 | after each critical section, however interleaved with waiters, exactly the events it is for are set and reset |
| `SpssEvents.PowerEventsExclude` | kernel/drivers/spss_utils.c:67-101 | without user signals of a power event the two are never both set while the lock is free, in any order of callbacks |
| `SpssEvents.UserSignalSetsBothIff` | kernel/drivers/spss_utils.c:133-151 | a user signal sets both exactly when it names one while the other is set |
| `SpssEvents.UserSetsBoth` | kernel/drivers/spss_utils.c:133-151 | a run from probe in which two user signals set both |
| `SpssEvents.SignalOnlyUnsignaled` | kernel/drivers/spss_utils.c:133-151 | a signal is taken exactly for a known event whose completion is not done, and otherwise changes nothing |
| `SpssEvents.WaiterGoesOnIff` | kernel/drivers/spss_utils.c:103-131 | at any moment a waiter can go on if and only if its event has been raised and not reset since |
| `SpssEvents.SignaledWaiterSleepsOn` | kernel/drivers/spss_utils.c:80-131 | a run for any event in which a signal is accepted while a thread waits and a stop before it runs leaves it asleep |
| `SpssIrq.StepKeepsInv` | kernel/drivers/qcom_spss_irq.c:22-51 | every step of handler, pollers and files keeps the device's invariant |
| `SpssIrq.NoInterruptLost` | kernel/drivers/qcom_spss_irq.c:42-51 | with the handler done and an interrupt unreported, no poller is left asleep and whichever goes next gets it |
| `SpssIrq.ReportsAccountForInterrupts` | kernel/drivers/qcom_spss_irq.c:42-51 | each successful poll reports at least one new interrupt, and unreported ones are pending |
| `SpssIrq.SingleOpener` | kernel/drivers/qcom_spss_irq.c:29-40 | there are never two openers |
| `SpssIrq.OpenSucceedsIff` | kernel/drivers/qcom_spss_irq.c:29-35 | opening succeeds exactly on a free node |
| `SpssIrq.ReleaseFrees` | kernel/drivers/qcom_spss_irq.c:37-40 | a release makes the node free again |
| `SpssIrq.EmptyHandedMeansNothing` | kernel/drivers/qcom_spss_irq.c:42-51 | a poll returns without an event only if every interrupt raised by then has been reported, and with one only if there was a new one |
| `Tensor.CountElements` | scripts/npu-onnx-run.c:55-57 | accepted exactly for positive dimensions whose full product is at most 10^9, with that product as result |
| `Tensor.SafeName` | scripts/npu-onnx-run.c:31-36 | the buffer ends up spelling the leaf, terminated inside its bounds |
| `Tensor.SuffixWholeIff` | scripts/npu-onnx-run.c:31-36 | the suffix is whole exactly when index and suffix fit together |
| `Tensor.ProgramSuffixesWhole` | scripts/npu-onnx-run.c:39 | with the program's buffer that holds for every index |
| `Tensor.LeafInjective` | scripts/npu-onnx-run.c:31-36 | names of different tensors differ, whatever they are called |
| `Tensor.LeafKeepsName` | scripts/npu-onnx-run.c:31-36 | behind the index the leaf holds as much of the name as fits, plain characters as they are and all others as underscores |
| `Tensor.LeafIsPlain` | scripts/npu-onnx-run.c:31-36 | a leaf starts with a digit and holds no separator |
| `Lens.RampDownSmoothIff` | kernel/drivers/dw9808_vcm.c:142-161 | wherever the lens starts, no move is longer than 16 if and only if each write that works follows one that worked or is the first to work and within 16 of the start |
| `Lens.FaultFreeRampSmoothIff` | kernel/drivers/dw9808_vcm.c:149-156 | without failures that is exactly a start within 16 of the first target, so always from the last request |
| `Lens.LostRequestJumps` | kernel/drivers/dw9808_vcm.c:98-116 | a request of 0 that fails at 1023 makes the next ramp jump by 1023 although every write of it works |
| `Lens.RampDownParksIff` | kernel/drivers/dw9808_vcm.c:142-161 | the lens ends at 0 exactly when the last write worked, or none did and it was there already |
| `Lens.RampUpReaches` | kernel/drivers/dw9808_vcm.c:179-187 | resume targets are exactly 16 apart, start below 16 and end at the requested position, the clamp never changing one |
| `Lens.RampDownTargets` | kernel/drivers/dw9808_vcm.c:149-151 | suspend targets start at the last multiple of 16 not above the request and go down by 16 to 0 |
| `Lens.FirstErrorIs` | kernel/drivers/dw9808_vcm.c:154-155 | the error kept is the earliest one |
| `Lens.Actuator.SetFocus` | kernel/drivers/dw9808_vcm.c:98-116 | the request is remembered even if the lens did not move |
| `Lens.Actuator.Suspend` | kernel/drivers/dw9808_vcm.c:142-161 | the ramp goes on after errors from wherever the lens is, smooth and parked under the exact conditions; the first error is reported and the supply always released |
| `Lens.Actuator.Resume` | kernel/drivers/dw9808_vcm.c:163-192 | success exactly when every step worked, with the whole ramp written and the lens at the request; failure releases the supply |

## Left out

- The recovery stop of the service on a stuck DSP (scripts/gts9u-ai.py:89): it goes around the lock protocol on purpose.
- Text still buffered when a client is interrupted between write and flush of the counter, and written by the later close: the model's interrupted write leaves the empty file.
- Counter contents that are not digits: they read as 0, as the empty file does.
- The installer's check that the service is inactive, and everything it copies: it takes part only with its lock.
- sp_hlos_vmap, vunmap, attach, detach, mmap and CPU access of the heap: bookkeeping inside one live buffer, easy beside page ownership.
- Cache maintenance, SG tables and the firmware's own view of ownership.
- ELF header checks and file reading in assemble_ta: the segments arrive as their offsets and contents.
- Copying and hashing of the frozen runtime and its program list (scripts/build-migration-backend.py:34-44, 69-85): I/O around the closure.
- The search path of a needed library: which of its three candidates exists is an input of `Resolver`.
- Parsing of `.shape` files, dtype sizes and everything behind the ONNX runtime's interface.
- Regulator publication, the fifty retries of a deferred supply and probe failure of the fingerprint companion: each is one answer of `FingerprintPower.Prepare`, or ends like removal.
- `copy_from_user` and `copy_to_user` of the event ioctls, their status codes on time-out, and the SSR and CMAC ioctls.
- Register tables, DSC data, delays and the pixel formats of panel, camera and lens; in the panel's init sequence only keys, sleep, brightness and the number of writes matter.
- kernel/drivers/qcom_spss.c, the user interface, staging and packaging scripts, boot-image scripts and download helpers.
- FingerprintPower.NoUseAfterFree: the reference count only; sysfs callbacks are taken to be drained by group removal.
- NpuClients.EveryReachableStateCanFinish: possibility of completion, not fairness; a stream of new clients can keep an exclusive waiter waiting, as flock allows.
- The lens's own fall to its rest position once the supply is off.
