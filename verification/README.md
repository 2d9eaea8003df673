# Verification of the edge fleet operator and agent

A Dafny model of the four protocols of the edge fleet demo, and proofs of what they promise in every
run: crashes, lost answers, stale reads and interleavings included. `dafny verify dfyconfig.toml`
checks everything.

## What is modelled

**Crash-safe A/B firmware update** (`internal/agent/slot.go`, `agent.go`, `fsm.go`). `Disks` is the data
directory: two slots of files, the `current` link and the temporary link. Every call of the slot manager
is a list of single file operations. `SlotManagers.SlotManager` performs them one by one on a disk whose
power may fail in front of or inside any of them; a write that is cut leaves the file truncated with any
prefix of the new content. `SlotMachine` is the whole device as a step machine over the same operations,
with power-on, power loss, rotting bytes of unconfirmed images, and transactions. Its invariant carries the
theorems of `SlotTheorems`: the crash invariant, refinement of a two-state machine (stable on one
image, or trying another with a fallback), try-once, and all-or-nothing upgrades. `Agents.Agent` runs
`bootSequence` and `runUpgrade` as programs and shows that every execution, complete or cut off, is a run of
the machine. `SingleFlight` interleaves polls and upgrade goroutines around the unsynchronised state machine.

**Batched rollout with circuit breaker** (`internal/controller/fleetrollout_controller.go`). `Rollouts`
specifies one pass: name order, int32 counting, the verdict, the planned writes, and conditional updates.
`RolloutControllers.Controller.Reconcile` is the pass with its loops, proved to be that. `RolloutHistories`
keeps every version of the fleet; a pass works from any past version, writes one update at a time, and may
conflict, fail or die anywhere while agents, the device operator and users change devices.
On it rest the cap
(`RolloutCaps`), the freeze (`RolloutFreezes`) and the verdict (`RolloutVerdicts`); `RolloutSamples` is a fleet
of three for the inputs at which a promise ends. `RolloutFixpoints`,
`RolloutReports` and `RolloutSchedules` follow passes that read the present fleet.

**Optimistic status writes** (`internal/agent/kube.go`, `reportStatus` in `agent.go`, the operator's status
write). `StatusStores` interleaves any number of read-mutate-PUT calls with polls, operator passes and spec
writes, request by request; `StatusTheorems` states what the stored object is; `KubeClients` is
the retry loop itself.

**Device lifecycle and download** (`internal/controller/edgedevice_controller.go`,
`internal/agent/download.go`). `Credentials` is the finalizer and Secret protocol under cached reads and
failing calls; `HeartbeatDeadlines` is the phase projection with its planned wake-ups; `Downloads` is the
resumed download and its backoff.

The ranges of `maxUnavailable` and `failureThresholdPercent` in the hypotheses are those the API validates
(`api/v1alpha1/fleetrollout_types.go:64-77`).

Parameters stand for what lies outside: the digest `h` (SHA-256, uninterpreted), random draws, clock
readings, what a server answers, how calls to the API server fare, and where the power fails. Tokens are
numbered as they are drawn, so two draws are never equal.

## Where code and documentation differ, and limits of the code

- `README.md:131-134` says a tripped rollout never un-trips itself. The pass recomputes the verdict from
  the device statuses each time (`internal/controller/fleetrollout_controller.go:87-103`), so it can: a
  failed device recovers, for instance, or a device comes to the target that the controller had not sent there.
  `RolloutVerdicts.BreakerReopens` shows both on a fleet of three; `ChangeRecomputes` is the exact verdict
  after any change of any one device. `VerdictStays` is the sentence under the two hypotheses that rule
  such changes out; pausing and unpausing devices does not matter (`UnpausingNeverReopens`). What always holds is
  the freeze of the devices themselves (`RolloutFreezes.BreakerFreeze`).
- The cap counts devices the pass sees in flight, and a failed device is not. If it goes back in flight after its
  place was given away, more than `maxUnavailable` devices fly (`RolloutCaps.CapExceeded`). In every run the
  excess is at most the number of such recoveries (`CapWithRecoveries`); without any the cap holds (`RolloutCap`).
- The breaker multiplies in int32. `Rollouts.ExactExactlyUpTo` shows that its test is the ratio test for
  fleets of up to 21,474,836 devices and for no larger bound.
- `DownloadOptions` accepts any number of attempts, but the shifted backoff overflows. The random draw is
  free of panics in all retries if and only if the largest shift stays within 63 bits
  (`Downloads.DrawsExactlyWhenSafe`); with the default backoffs that is up to 36 attempts
  (`DefaultsAreSafeUpTo36`).

## Model

| member | source | states |
|---|---|---|
| Disks.TriesOfMarkers | internal/agent/slot.go:203 | the counter contents that occur, a torn empty file included, read as 0, 0 and 1 tries |
| Disks.TornReads | internal/agent/slot.go:211 | a write cut by a power loss may leave any prefix of its content, the empty one included, and nothing else changed |
| SlotManagers.ExecIsTornPrefix | internal/agent/slot.go:113-135 | a call cut by a power loss has done a prefix of its operations and torn the next one |
| SlotManagers.SlotManager.Open | internal/agent/slot.go:50-71 | creates the factory state exactly when the link is missing, or the part of it the power allows |
| SlotManagers.SlotManager.SwitchTo | internal/agent/slot.go:173-180 | link, rename: on return `current` names the slot and no slot file has changed |
| SlotManagers.SlotManager.Stage | internal/agent/slot.go:107-136 | on return the inactive slot holds exactly image, version and checksum, and the active slot is still linked |
| SlotManagers.SlotManager.Verify | internal/agent/slot.go:141-152 | VerifyStaged and SelfCheck succeed exactly when the stored image has the digest stored beside it |
| SlotManagers.SlotManager.PromoteStaged | internal/agent/slot.go:158-168 | pending marker first, then the flip; images are left alone |
| SlotManagers.SlotManager.BootCheck | internal/agent/slot.go:185-215 | the verdict on the markers, and the operations that go with it |
| SlotManagers.SlotManager.Rollback | internal/agent/slot.go:247-258 | the link ends on the other slot, the pending marker goes first |
| SlotManagers.SlotManager.Confirm | internal/agent/slot.go:234-244 | marker, then removal of the counter; an error exactly when there was none to remove |
| SlotMachine.VerdictOfMarkers | internal/agent/slot.go:192-214 | on every reachable disk the verdict depends on the confirmed marker and a counter that is missing, "1" or else |
| SlotMachine.NextKeepsInv | internal/agent/slot.go:107-258 | each operation, decision, power loss, torn write, reboot and rot keeps the invariant of the device |
| SlotMachine.TornWriteKeepsDisk | internal/agent/slot.go:113-116 | a torn write leaves a confirmed slot and well-formed counters |
| SlotTheorems.CrashInvariant | internal/agent/slot.go:25-27 | at every instant: an existing link stays, it or the other slot is confirmed, confirmed slots are factory or match their checksum, a booted agent runs a confirmed slot |
| SlotTheorems.StepRefines | internal/agent/slot.go:234-258 | every file-level step is a step of the Stable/Trying machine or does not move it |
| SlotTheorems.RunRefines | internal/agent/slot.go:50-258 | whole runs of a fresh device are runs of that machine from Blank |
| SlotTheorems.TryOnce | internal/agent/slot.go:196-214 | between two granted trials there is a promotion |
| SlotTheorems.RolledBackStaysOut | internal/agent/slot.go:247-258 | a slot that was rolled back is active again only after a new staging followed by a promotion |
| SlotTheorems.AllOrNothing | internal/agent/agent.go:102-125 | after any crashes in a transaction and its recovery, a booted agent runs, confirmed, the untouched old slot or the target with a checked image |
| SlotTheorems.RotAfterSelfCheck | internal/agent/agent.go:272-277 | an image that rots between self-check and marker ends up confirmed without matching its checksum |
| Fsms.Fsm.To | internal/agent/fsm.go:51-62 | moves exactly along the table and otherwise stays |
| Fsms.TableExactly | internal/agent/fsm.go:24-32 | the table allows one step forward, home from the last step, and Failed from every step of a transaction, nothing else |
| Fsms.NoStepSkipped | internal/agent/fsm.go:24-32 | no history reaches a step without all earlier steps of a transaction right before it |
| SingleFlight.AtMostOneTransaction | internal/agent/agent.go:178-197 | in every interleaving one transaction at most, flag up exactly while it runs, state machine at rest otherwise, no transition ever refused |
| SingleFlight.PollStarts | internal/agent/agent.go:178-197 | a poll that finds the flag down starts a worker, one that finds it up changes nothing |
| SingleFlight.TransactionEnds | internal/agent/agent.go:188-196 | from rest a transaction ends within seven steps, Idle exactly if its four steps succeed, else Failed, with the flag down |
| Agents.Agent.Evaluate | internal/agent/agent.go:129-152 | an upgrade is started exactly if the active version differs, the device is not paused and this target has not just failed; a corrected checksum and the first target of a new agent are tried |
| Agents.Agent.KeyDistinguishes | internal/agent/agent.go:144-151 | keys tell checksums of one version apart, whole targets while checksums have one length, and are never empty |
| Agents.Agent.PowerOn | internal/agent/agent.go:102-125 | from any reachable disk, exactly BootCost (at most five) operations of power bring the agent up on a confirmed slot, as a run of the machine |
| Agents.Agent.FinishTrial | internal/agent/agent.go:108-117 | confirms exactly the image that passes the self-check and otherwise links the other slot |
| Agents.BootReaches | internal/agent/agent.go:267-271 | BootCheck in a transaction always grants the trial, so the BootFailed exit is never taken |
| Agents.Agent.Install | internal/agent/agent.go:245-281 | flashing and reboot, a run of the machine: new image confirmed exactly when every hashed copy has the digest, the failing step named, the power needed exact |
| Agents.Agent.RunUpgrade | internal/agent/agent.go:201-294 | whole transaction: Idle on the confirmed target exactly when all bytes are good, else Failed, at the step whose copy was bad, on the old slot with its files untouched; power lost exactly when it does not suffice, leaving a recoverable disk reached by a run of the machine |
| Agents.Agent.Fetch | internal/agent/agent.go:218-247 | up to flashing: Rejected, or Failed at download or digest, or on to flashing, each exactly when it should be |
| Downloads.AttemptKeepsPrefix | internal/agent/download.go:73-121 | whatever the server answers and wherever the transfer is cut, the file stays a prefix of the image; success completes it; a 416 removes it |
| Downloads.NoRangeAfter416 | internal/agent/download.go:88-106 | the attempt after a 416 asks for the whole image, so it meets neither a 206 nor another 416 |
| Downloads.FileSinceRestart | internal/agent/download.go:98-121 | the file is exactly what was delivered since the last 200 or 416 |
| Downloads.NoFileSinceRestart | internal/agent/download.go:104-106 | there is no file exactly after a 416 that no 206 has followed |
| Downloads.ResumeNeedsPrefix | internal/agent/download.go:99-101 | a clean 206 completes the image if and only if the kept bytes were a prefix of it |
| Downloads.NothingFetchedTwice | internal/agent/download.go:41-47 | while ranges are honoured the file grows by exactly the bytes delivered |
| Downloads.Downloader.DownloadWithResume | internal/agent/download.go:48-71 | success means the file is the image; it stops at the first success, on cancellation, after the configured attempts, or by a panic in the first retry whose backoff is not positive; while all attempts fail it gives up exactly if the options are safe and else panics; total sleep at least half of every backoff taken and below 3/2 of min(base*(2^(n-1)-1), max*(n-1)) |
| Downloads.Downloader.Attempts | internal/agent/download.go:51-70 | the attempt loop: what it leaves on disk, exactly when it succeeds, panics or is cancelled, what it slept |
| Downloads.Downloader.Sleep | internal/agent/download.go:56-57 | each sleep is at least half the backoff and below 3/2 of it; no sleep exists exactly when the backoff is not positive |
| Downloads.JitterReachesAll | internal/agent/download.go:57 | the jitter reaches every sleep in its range |
| Downloads.DefaultSchedule | internal/agent/download.go:24-38 | five attempts, half a second doubling, never more than fifteen seconds; set options are kept |
| Downloads.BackoffExact | internal/agent/download.go:56 | while the largest shift fits in 63 bits the backoff is min(base*2^(k-1), max) |
| Downloads.DrawsExactlyWhenSafe | internal/agent/download.go:56-57 | for 64-bit durations every retry has a positive backoff if and only if base and max are positive and base*2^(n-2) < 2^63 |
| Downloads.DefaultsAreSafeUpTo36 | internal/agent/download.go:24-38 | with the default backoffs that is n <= 36; the 36th retry draws from a negative range |
| Downloads.BackoffVanishes | internal/agent/download.go:56 | whatever the base, the backoff is zero from the 65th retry on |
| Devices.SetCondition | internal/agent/kube.go:202-220 | the loop over the slice is the upsert |
| Devices.UpsertFinds | internal/agent/kube.go:200-220 | an upsert sets the entry of its type, moves the transition time only on a flip, and leaves every other type as found |
| Devices.TimeMovesOnFlips | internal/agent/kube.go:200-220 | the transition time moves exactly when the status value flips or is new |
| Devices.UpsertKeepsUnique | internal/agent/kube.go:202-220 | one entry per type stays one entry per type |
| Devices.WrittenIsProjection | internal/controller/edgedevice_controller.go:132-151 | what the operator writes is its own projection, so projecting again at the same time compares equal |
| Devices.PassLeavesProjection | internal/controller/edgedevice_controller.go:132-151 | whether the pass writes or its gate holds, the stored phase and Healthy condition are the projection for the current generation |
| Devices.StatusSpeaks | internal/controller/edgedevice_controller.go:192-219 | after a pass phase and Healthy say exactly whether the device has enrolled, is silent past the timeout, reports a failure, runs its version |
| Devices.HealthIsTimed | internal/controller/edgedevice_controller.go:229 | the Healthy condition's time is when health last changed |
| StatusTheorems.NoLostUpdate | internal/agent/kube.go:176-198 | every version is the replay of the successful writes in order; a call wrote once if it succeeded and else left no trace; at most five PUTs |
| StatusTheorems.MonotoneObservedGeneration | internal/agent/agent.go:316-321 | in every interleaving of one agent process the stored observedGeneration never decreases nor passes the generation |
| StatusTheorems.WritersDisjointAndCoherent | internal/controller/edgedevice_controller.go:169-173 | the agent's fields are what its own writes make of them, one entry per condition type, and an operator write leaves phase and Healthy saying what the facts in the object are |
| StatusTheorems.AgentLeavesOperatorFields | internal/agent/agent.go:316-321 | no agent write touches phase or the Healthy condition |
| StatusTheorems.FailureShows | internal/controller/edgedevice_controller.go:213-215 | after an agent write the device counts as failed exactly if the write reported a terminal failure, or was a heartbeat on top of one |
| StatusTheorems.SyncedShows | internal/agent/agent.go:160-166 | FirmwareSynced after each report: true from completion, false from announcement or failure, untouched by heartbeats |
| StatusTheorems.OutcomeShows | internal/agent/agent.go:212-293 | with a fresh heartbeat the announcement shows as Upgrading, completion of the desired version as Ready, a failure as Degraded |
| StatusTheorems.CallAlone | internal/agent/kube.go:176-198 | an undisturbed call stores its mutation, stamped with the generation seen, in one PUT |
| StatusTheorems.ConflictIsRetried | internal/agent/kube.go:178-197 | four conflicts lead to a new GET each, the fifth ends the call, none leaves a trace |
| StatusTheorems.PassesAndUsersAct | internal/controller/edgedevice_controller.go:132-151 | a pass on the latest object leaves it saying what its facts are |
| StatusStores.StepKeepsInv | internal/agent/kube.go:176-198 | each request of each call, poll, operator pass and spec write keeps the bookkeeping invariant |
| KubeClients.ApiServer.UpdateStatus | internal/agent/kube.go:176-198 | the retry loop equals the specification Retry against any other traffic and any failing GET or PUT |
| KubeClients.RetryLosesNothing | internal/agent/kube.go:167-175 | others' writes stay in order, the call adds one write exactly if it succeeds, and its mutation applies to the version just before it |
| KubeClients.FirstWithoutConflictDecides | internal/agent/kube.go:183-197 | only conflicts are retried: the first attempt without one decides, by success or by its error; the number of PUTs is exact |
| KubeClients.FiveAttempts | internal/agent/kube.go:178-197 | four conflicts are survived, five end the call |
| KubeClients.ApiServer.PutStatus | internal/agent/kube.go:142-167 | barring other errors, stores the status if and only if the resourceVersion is the latest |
| Credentials.CredentialLifecycle | internal/controller/edgedevice_controller.go:98-129 | in every run a Secret exists only while its device instance exists with the finalizer, and no UID gets two tokens |
| Credentials.StepKeepsInv | internal/controller/edgedevice_controller.go:98-129 | every call of a pass, lost answer, restart and user action keeps the protocol's invariant |
| Credentials.RotateHasNoEffect | internal/controller/edgedevice_controller.go:257-268 | with nobody else touching Secrets, rotation of a foreign Secret is refused: it is never still there |
| Credentials.CreateKeepsInv | internal/controller/edgedevice_controller.go:273-288 | a Secret is created only for an instance that holds the finalizer and never had a token |
| Credentials.Reconciler.Reconcile | internal/controller/edgedevice_controller.go:80-164 | a pass is a run of the machine with exactly the effects of its calls; it reports an error exactly when a call fails or is refused; on current reads and without errors it has released, finalized or provisioned the device |
| Credentials.NoErrorWithoutCause | internal/controller/edgedevice_controller.go:80-164 | with current reads and calls that succeed no pass fails |
| Credentials.Reconciler.Release | internal/controller/edgedevice_controller.go:98-110 | revocation before release: the object goes only with no Secret left; an error exactly when a call fails or the object has moved |
| Credentials.Reconciler.EnsureCredential | internal/controller/edgedevice_controller.go:254-289 | own Secrets are left alone; an error exactly when the Secret cannot be read or the write it needs fails or conflicts; with a current read, success means a Secret stamped with this UID |
| HeartbeatDeadlines.HeartbeatDeadline | internal/controller/edgedevice_controller.go:184-230 | with honoured wake-ups, Ready or Upgrading implies a heartbeat at most timeout + 1 s old at all times |
| HeartbeatDeadlines.WakeUpDemotes | internal/controller/edgedevice_controller.go:221-226 | the wake-up of a live device comes one second after expiry, and silence then demotes it |
| HeartbeatDeadlines.WakeUpPlanned | internal/controller/edgedevice_controller.go:190-226 | every pass asks to be woken one second past the expiry of a fresh heartbeat, else after the timeout |
| HeartbeatDeadlines.SilenceDemotes | internal/controller/edgedevice_controller.go:200-204 | silence past the timeout shows as Degraded in the next pass |
| HeartbeatDeadlines.HeartbeatRevives | internal/controller/edgedevice_controller.go:206-220 | the next heartbeat and pass take it back, unless a failure is reported |
| Rollouts.SortByNameIsLexicographic | internal/controller/fleetrollout_controller.go:66-68 | name order is a permutation in strict lexicographic order |
| Rollouts.LessIsLexicographic | internal/controller/fleetrollout_controller.go:68 | the order of names is lexicographic: a proper prefix first, else the smaller character where two names first differ |
| Rollouts.SortByNameSorts | internal/controller/fleetrollout_controller.go:66-68 | name order is a strictly sorted permutation |
| Rollouts.SortedUnique | internal/controller/fleetrollout_controller.go:66-68 | and the only one |
| Rollouts.OrderAndHistoryIndependent | internal/controller/fleetrollout_controller.go:66-171 | writes and the status compared by the gate are the same for every listing order and every stored status |
| Rollouts.TripsExactly | internal/controller/fleetrollout_controller.go:97 | in fleets of up to 21,474,836 devices the int32 test is failed/targeted >= threshold/100 |
| Rollouts.ExactExactlyUpTo | internal/controller/fleetrollout_controller.go:97 | that size is the largest for which it is |
| Rollouts.CountsAddUp | internal/controller/fleetrollout_controller.go:71-91 | in-flight, failed, succeeded and untargeted partition the list |
| Rollouts.PhaseAgreesWithCount | internal/controller/fleetrollout_controller.go:180-186 | a targeted device the operator calls Ready counts as succeeded, Upgrading as in flight, and it counts as failed exactly if it runs other firmware and went dark or reported a terminal failure |
| Rollouts.Pushes | internal/controller/fleetrollout_controller.go:126-144 | the plan is in name order, of eligible devices only, and within the capacity |
| Rollouts.Freezes | internal/controller/fleetrollout_controller.go:106-114 | exactly the devices not yet paused, in name order |
| RolloutControllers.Controller.Reconcile | internal/controller/fleetrollout_controller.go:53-175 | sort, count, branch and gated status write leave the specified fleet and status, or stop at the first refused write; a refused status write is the error and keeps the old status; on any listing of the present fleet it is the fresh pass |
| RolloutControllers.Controller.CountDevices | internal/controller/fleetrollout_controller.go:70-91 | the int32 counters and the untargeted list |
| RolloutControllers.Controller.FreezeAll | internal/controller/fleetrollout_controller.go:106-114 | the loop performs the freeze plan |
| RolloutControllers.Controller.PushNext | internal/controller/fleetrollout_controller.go:126-144 | the loop performs the top-up plan and counts what it pushed |
| RolloutControllers.SelectIsPushes | internal/controller/fleetrollout_controller.go:126-144 | taking collected untargeted devices while capacity lasts is taking eligible devices in name order |
| RolloutHistories.AttemptExactly | internal/controller/fleetrollout_controller.go:137-139 | a write goes through exactly when the device has not moved since the snapshot |
| RolloutHistories.StepKeepsInv | internal/controller/fleetrollout_controller.go:99-145 | every step keeps a well-formed history and a pass true to its snapshot |
| RolloutHistories.DrainedIsExecute | internal/controller/fleetrollout_controller.go:106-144 | an uninterrupted pass of the machine is the pass of the controller |
| RolloutHistories.PassEnds | internal/controller/fleetrollout_controller.go:53-175 | left alone a pass comes to its end and the next can begin from any version |
| RolloutCaps.CapWithRecoveries | internal/controller/fleetrollout_controller.go:121-144 | from arbitrary past snapshots and with any failures, never more devices in flight than maxUnavailable plus one for every time a failed device went back in flight |
| RolloutCaps.RolloutCap | internal/controller/fleetrollout_controller.go:121-144 | so never more than maxUnavailable when outcomes are final |
| RolloutCaps.CapExceeded | internal/controller/fleetrollout_controller.go:87-91 | the bound is met: three devices, a cap of one, one recovery, two in flight |
| RolloutCaps.StaleSnapshotWritesNothing | internal/controller/fleetrollout_controller.go:66-68 | a snapshot that misses a push makes the first write conflict, so the pass writes nothing |
| RolloutCaps.FirstWriteSawAll | internal/controller/fleetrollout_controller.go:121-144 | if the first write goes through, the snapshot's in-flight count and the recoveries since bound the true one |
| RolloutFreezes.BreakerFreeze | internal/controller/fleetrollout_controller.go:101-116 | after a completed tripped pass each selected device stays paused and untouched in its desired version until someone else clears the flag |
| RolloutVerdicts.VerdictStays | internal/controller/fleetrollout_controller.go:93-116 | after a completed tripped pass, if failed devices stay failed and no device reaches the target unless the controller sends it, every version since the snapshot is tripped and the controller sends none |
| RolloutVerdicts.UnpausingNeverReopens | internal/controller/fleetrollout_controller.go:159-163 | unpausing devices, however many and how often, does not open the breaker |
| RolloutVerdicts.ChangeRecomputes | internal/controller/fleetrollout_controller.go:87-103 | the exact verdict after any change of any one device |
| RolloutVerdicts.RecoveryRecomputes | internal/controller/fleetrollout_controller.go:87-103 | one recovery opens the breaker exactly when the remaining failures are below the ratio |
| RolloutVerdicts.ArrivalRecomputes | internal/controller/fleetrollout_controller.go:75-80 | one device arriving at the target on its own opens it exactly when the failures are below the ratio of one target more |
| RolloutVerdicts.BreakerReopens | internal/controller/fleetrollout_controller.go:97 | a fleet of three is tripped, and open after either |
| RolloutFreezes.PackageStaysTogether | internal/controller/fleetrollout_controller.go:134-136 | in every run a device told the target is told the rollout's own URL and checksum with it |
| RolloutFixpoints.FreshExecute | internal/controller/fleetrollout_controller.go:106-144 | a pass on the present fleet is never refused and rewrites exactly the planned devices |
| RolloutFixpoints.ReconcileFixpoint | internal/controller/fleetrollout_controller.go:70-171 | with no outside change every pass after the first (eligible devices + 1) writes nothing |
| RolloutFixpoints.WithinFleetSizePlusOne | internal/controller/fleetrollout_controller.go:70-171 | hence after n + 1 passes |
| RolloutFixpoints.SecondPassIsQuiet | internal/controller/fleetrollout_controller.go:147-171 | if no untargeted device counts as failed, the second pass already writes nothing |
| RolloutFixpoints.GateForgets | internal/controller/fleetrollout_controller.go:188-199 | the gate compares nothing that depends on the clock or on stored conditions |
| RolloutReports.ReportIsTrue | api/v1alpha1/fleetrollout_types.go:80-97 | the stored counts are the numbers of devices selected, on target and running it in the fleet the pass leaves; Paused exactly when the failure ratio was reached, Complete only when all run the target |
| RolloutReports.TopUpExactly | internal/controller/fleetrollout_controller.go:121-144 | a top-up takes the first devices by name that are not on target and not paused, and leaves one out only when maxUnavailable devices are in flight |
| RolloutReports.BreakerIsTimed | internal/controller/fleetrollout_controller.go:155-164 | the breaker condition is judged for the rollout's generation and its time moves when the verdict flips |
| RolloutSchedules.BatchSchedule | internal/controller/fleetrollout_controller.go:118-144 | when all in-flight devices succeed between passes, each pass targets exactly the next min(maxUnavailable, remaining) devices by name and Complete is reported from pass ceil(n/maxUnavailable) + 1 on |
| RolloutSchedules.BatchesInNameOrder | internal/controller/fleetrollout_controller.go:66-68 | the order of the batches is the lexicographic order of names |

## Left out

- HTTP, TLS, JSON, kubeconfig parsing, logging, flags, manager set-up and generated deep copies: plumbing.
- `rolloutsForDevice` and the watches: event wiring; passes may start at any time in the model.
- SlotMachine.NextKeepsInv: file operations take effect durably and in order, or the process dies; other I/O errors are not modelled, because after one a later `Stage` in the same process may unmark the only confirmed slot. Bytes of a trial image do not rot between the self-check and its marker (`RotAfterSelfCheck` shows why), nor do confirmed slots. Rot hits firmware bytes only: version and checksum files are assumed intact.
- SlotManagers.SlotManager.Open: directory creation is taken as done.
- SlotManagers.SlotManager.BootCheck: `Atoi` is modelled for unsigned decimals without its range limit; only an empty counter, "0" and "1" occur.
- SlotManagers.SlotManager.Verify: trimming of whitespace around stored checksums and versions is not modelled; neither has any.
- Agents.Agent.RunUpgrade: status reports are the mutations of `StatusStores`; the staging file's name and its removal are not part of the disk; the error texts are dropped.
- Agents.Agent.Evaluate: a single call; the checks and the guard are separate, so nothing is claimed about the failed-target check across interleavings, nor that a changed spec is always tried.
- SingleFlight.AtMostOneTransaction: the memory model below the mutex.
- Downloads.Downloader.DownloadWithResume: one fixed image per URL; the per-attempt timeout is one of the ways an attempt may end; failures to open or write the staging file are not modelled.
- StatusTheorems.MonotoneObservedGeneration: for one agent process whose GETs read the latest object and a device that is not recreated; across restarts the value may fall back to 0.
- StatusTheorems.NoLostUpdate: a PUT that fails with anything but a conflict has no effect.
- KubeClients.ApiServer.UpdateStatus: the same assumption about failing PUTs.
- When `FirmwareSynced` turns true during a transaction: a poll between flip and confirm may report it early, so nothing is claimed.
- Devices.WrittenIsProjection: condition messages are shortened and transition times are readings of one clock.
- HeartbeatDeadlines.HeartbeatDeadline: one clock reading per pass, writes succeed, planned wake-ups come in time, and heartbeats do not go back.
- Credentials.CredentialLifecycle: nobody else touches Secrets or strips finalizers, and cached reads of the device do not go back; Secrets without annotations do not occur.
- RolloutCaps.CapWithRecoveries: one rollout with a fixed spec over a fixed fleet, serial passes; others leave desired versions alone, only pause, and take no success back.
- RolloutVerdicts.VerdictStays: one rollout with a fixed spec over a fixed fleet, serial passes.
- RolloutFreezes.BreakerFreeze: a fixed fleet; devices selected later are not covered.
- RolloutHistories.StepKeepsInv: updates are modelled as changing the resourceVersion even when they change nothing else, and devices are not recreated.
- RolloutControllers.Controller.Reconcile: the rollout and the device list are inputs; errors in reading them end the pass before it starts.
