# Verified model of the remotechargeport protocols

A charging station built from several boards appears to its backend as one. This project models the four
protocols that make it so, and proves what can be relied on in every run of each:

1. **Firmware status aggregation** (`FirmwareSpec`, `FirmwareAggregator`, `FirmwareLaws`, `FirmwareOrder`,
   `FirmwareOrigin`). Each of N boards reports firmware statuses, interleaved at will; the aggregator publishes one stream. `FirmwareSpec.Answer` is the closed
   form of what a report publishes, in terms of the reports before it; the class with the counters, flags and latch
   is proved to publish exactly that, and the laws are about the resulting traces; `FirmwareOrder` is about the order of
   the milestones Downloaded, Installing and Installed in them, `FirmwareOrigin` about which report each message is.
2. **Start-up handshake** (`Handshake`, `HandshakeSafety`, `HandshakeProgress`, `HandshakeStop`, `HandshakeStuck`). The agent's init
   thread, its RPC handlers and the controller are a transition system: one step per critical section, with
   restarts, timeouts, lost answers and spurious wake-ups of both processes. `Handshake.Enabled` and
   `Handshake.Apply` follow `modules/SatelliteAgent/SatelliteAgent.cpp:171-258` and
   `modules/SatelliteController/SatelliteController.cpp:77-107`.
3. **Log uploads** (`UploadSpec`, `UploadLaws`, `UploadRetry`, `UploadLines`, `UploadAggregator`). Requests, cancellations, status
   callbacks and detached workers share two maps under one mutex. The class keeps the maps; `UploadSpec` describes the
   same uploads per log type with the history of their feedback; every method is proved to take the specified step.
   The worker threads that are alive are kept in a ghost multiset. `UploadLines` is about the lines of the helper script.
4. **Event transfer** (`EventVocabulary`, `EventTransfer`). Queued events and errors move from the agent to the
   controller's publishers by polling.

`Sequences` holds counting and concatenation lemmas, `Wrappers` the optional values of requests and events. N,
the number of boards, is symbolic everywhere. The 32-bit counters wrap around where the source's do. RPC is messages that may be delayed or never arrive; payloads are opaque;
timeouts are steps that may happen at any time.

## Where the code and its documentation disagree

The model follows the code.

- The repository's README says that the two-step handshake detects the re-connect of a crashed controller
  (`README.md:85-89`). It does not when the controller is lost between its accepted `i_am_here` and `i_am_ready`: the
  agent's init then holds the lock that every later `i_am_here` waits for. `HandshakeStuck.EscapesIffNotDoomed` gives the
  exact condition, `ReconnectUndetected` its consequence, `DoomedIsReachable` a run into it. The condition is that of the
  model, in which every handler call has a thread of its own. The source starts the RPC server without a thread count
  (`modules/SatelliteAgent/SatelliteAgent.cpp:242`). With a single worker thread, an `i_am_here` that waits for the lock
  would also hold up a queued `i_am_ready` and the "exit" call, so that more states would be doomed than stated here.
- A comment demands that InvalidSignature is not published before Downloaded
  (`modules/SystemAggregator/SystemAggregator.cpp:118`). It is, if no board has reported Downloaded:
  `FirmwareLaws.InvalidSignatureOrder` is the exact condition, `InvalidSignatureWithoutDownloaded` an input.
- Request ids are not compared, so reports left over from an earlier update count for the current one and stand in for
  boards that have not reported (`FirmwareLaws.StaleReportBreaksBarrier`). `FirmwareLaws.BarrierIff` says exactly when the
  barrier holds although reports are repeated; `Barrier` and `BarrierMoment` are its case without repetitions.
- The milestones can be published out of order: a board that skips Downloaded, or whose Downloaded is lost, lets
  Installing be complete before Downloaded is, and a later InvalidSignature then forces Downloaded out after it
  (`FirmwareOrder.OrderCanBreak`). `OrderBrokenIff` is the exact condition. Without a failure the order is kept whatever is
  skipped (`MilestonesCompleted`), and with one if nothing is skipped (`OrderPreserved`).
- A rejected upload leaves its type in use, and no later request of that type reaches a board
  (`UploadLaws.RejectedForEver`).
- The branch that reports a cancelled upload as Idle (`modules/SystemAggregator/system/systemImpl.cpp:206-211`) is never
  taken: a wait that ends without its condition has a running record. A cancelled upload ends without any status, and
  `UploadRetry.LogStatuses` bounds what the helper loop can publish.
- A cancellation notifies nobody, and feedback for a cancelled upload does not either (the `wakeup` result of
  `UploadAggregator.Aggregator.OnLogStatus`), so a cancelled worker goes on waiting until its timeout, unless feedback
  for another upload wakes it.
- An upload request with `retries` = -1 makes the retry loop endless unless a run succeeds
  (`UploadRetry.TerminatesIff`, `UnboundedIffMinusOne`).
- The worker waits for a counter to equal N. A repeated feedback can carry it past N, so that the worker misses that all
  boards have reported (`UploadLaws.RepeatedFeedbackMissed`), or stand in for a board that has not
  (`RepeatedFeedbackPremature`). `WaitIsRightIff` says for which feedback the condition is right at every moment, `MissedIff`
  and `PrematureIff` at which moments it is not.
- Final feedback for a cancelled upload removes its record, file names included. The worker then deletes none of the
  incoming files (`removed` in `UploadAggregator.Aggregator.FinishWorker`); without such feedback it deletes all that the
  boards did not report as failed.
- The branch of the `i_am_ready` handler for repeated calls (`modules/SatelliteAgent/SatelliteAgent.cpp:212-215`) is never
  taken: no agent gets a second `i_am_ready` (`HandshakeStop.ReadyNeverRepeated`).
- The branch for unhandled firmware statuses (`modules/SystemAggregator/SystemAggregator.cpp:148`) cannot be reached: the
  three classes of statuses are exhaustive.

## Model

| member | source | states |
|---|---|---|
| FirmwareAggregator.Aggregator.OnFirmwareUpdateStatus | modules/SystemAggregator/SystemAggregator.cpp:63-149 | the callback publishes exactly the closed form for this report after the epoch's earlier ones, and nothing in a muted first epoch; with Valid, the whole published stream equals the run's closed form; what is added has this report's status and request id, or is a Downloaded forced out by InvalidSignature, and after a first failure the stream ends in that failure |
| FirmwareAggregator.Aggregator.Classify | modules/SystemAggregator/SystemAggregator.cpp:76-148 | before the latch is set, every status falls into one of the three classes, and counters and flags go on summarising the epoch unless the report was a failure |
| FirmwareAggregator.Aggregator.Summarise | modules/SystemAggregator/SystemAggregator.cpp:93-109 | a summarised status is counted, and published exactly when the 32-bit count reaches the number of boards |
| FirmwareAggregator.Aggregator.ReportOnce | modules/SystemAggregator/SystemAggregator.cpp:111-146 | Downloading and failures are published as the closed form says, Downloaded forced out first if needed, each failure as itself, and the latch is set exactly by a failure |
| FirmwareAggregator.Aggregator.HandleUpdateFirmware | modules/SystemAggregator/system/systemImpl.cpp:30-37 | an update request publishes nothing and starts a new epoch in which all counting begins afresh |
| FirmwareAggregator.Aggregator.constructor | modules/SystemAggregator/SystemAggregator.hpp:59-63 | the invariant holds at start-up whatever the uninitialised latch contains |
| FirmwareLaws.TerminalSilence | modules/SystemAggregator/SystemAggregator.cpp:71-74 | an epoch publishes a failure if and only if one was reported, and nothing follows it |
| FirmwareOrigin.Origins | modules/SystemAggregator/SystemAggregator.cpp:76-130 | until a failure every message is one of the reports, with its status and request id, none twice and none out of order; what is left to the local board comes from board 0 |
| FirmwareOrigin.FailurePublished | modules/SystemAggregator/SystemAggregator.cpp:111-146 | a failed epoch publishes what preceded its first failure and then that very failure; only a Downloaded with the request id of an InvalidSignature may come between, exactly if the count of Downloaded is positive and below N |
| FirmwareLaws.FirstEpoch | modules/SystemAggregator/SystemAggregator.hpp:62 | before the first update request nothing is published if the uninitialised latch is set, and everything as in any other epoch if it is not |
| FirmwareLaws.TraceExtends | modules/SystemAggregator/SystemAggregator.cpp:63-149 | what is published is never taken back, and nothing is added after a failure, whatever is reported later |
| FirmwareLaws.EpochsIndependent | modules/SystemAggregator/system/systemImpl.cpp:32-37 | a run's stream is the concatenation of its epochs' streams: nothing before an update request influences what follows it |
| FirmwareLaws.PublishedAsOftenAs | modules/SystemAggregator/SystemAggregator.cpp:76-146 | in a failure-free epoch each status is published as often as a closed form over report counts says, wrap-around of the counter included |
| FirmwareLaws.InterleavingIndependence | modules/SystemAggregator/SystemAggregator.cpp:63-149 | two interleavings of the same failure-free reports publish the same multiset of statuses |
| FirmwareLaws.BarrierMoment | modules/SystemAggregator/SystemAggregator.cpp:99-106 | if no board repeats itself, a summarised status is published by the report that completes the set of boards and by no other |
| FirmwareLaws.Barrier | modules/SystemAggregator/SystemAggregator.cpp:99-106 | over a failure-free epoch a summarised status is published exactly once if all boards reported it, and otherwise never |
| FirmwareLaws.BarrierIff | modules/SystemAggregator/SystemAggregator.cpp:99-106 | for reports repeated at will: a summarised status is published once if all boards reported it and otherwise never, if and only if there were fewer than N reports of it while a board was missing, and fewer than N + 2^32 if none was |
| FirmwareLaws.StaleReportBreaksBarrier | modules/SystemAggregator/SystemAggregator.cpp:99-106 | an input outside that condition: a left-over report of the same board passes for a board that never reported |
| FirmwareLaws.InvalidSignatureOrder | modules/SystemAggregator/SystemAggregator.cpp:118-143 | Downloaded precedes a first InvalidSignature if and only if some board reported it, and exactly once if and only if the counter did not wrap |
| FirmwareLaws.InvalidSignatureAfterOwnDownloaded | modules/SystemAggregator/SystemAggregator.cpp:118-143 | if the failing board reported Downloaded itself and none did twice, the backend sees Downloaded exactly once before InvalidSignature |
| FirmwareLaws.InvalidSignatureWithoutDownloaded | modules/SystemAggregator/SystemAggregator.cpp:118-143 | an input on which InvalidSignature is published although Downloaded never was |
| FirmwareOrder.MilestonesCompleted | modules/SystemAggregator/SystemAggregator.cpp:93-109 | if each board reports milestones at most once and in order, skipping any, then until a failure the published milestones are exactly those that all boards reported, in order and none twice |
| FirmwareOrder.OrderBrokenIff | modules/SystemAggregator/SystemAggregator.cpp:93-143 | a failed epoch of such boards publishes milestones out of order or twice if and only if its first failure is InvalidSignature, some but not all boards had reported Downloaded, and all had reported Installing or all Installed |
| FirmwareOrder.OrderCanBreak | modules/SystemAggregator/SystemAggregator.cpp:118-143 | an input on which Downloaded is published after Installing |
| FirmwareOrder.OrderPreserved | modules/SystemAggregator/SystemAggregator.cpp:63-149 | if no board skips a milestone, the published milestones are a prefix of Downloaded, Installing, Installed, failures included |
| HandshakeSafety.InvStep | modules/SatelliteAgent/SatelliteAgent.cpp:171-258 | every step of every thread, restarts and faults included, keeps the inductive invariant |
| HandshakeSafety.SessionPairing | modules/SatelliteAgent/SatelliteAgent.cpp:171-200 | in every run an agent incarnation answers at most one i_am_here with false and serves worker RPCs only to the controller incarnation that got it |
| HandshakeSafety.Barrier | modules/SatelliteAgent/SatelliteAgent.cpp:202-258 | a controller past i_am_ready was admitted by an agent that has registered its worker callbacks; an agent leaves init only after the controller it admitted called i_am_ready; no wake-up is lost |
| HandshakeSafety.NobodySleepsMyself | modules/SatelliteAgent/SatelliteAgent.cpp:217-219 | in no run does an i_am_ready handler sleep in its second wait, since its lock is free only once the condition holds |
| HandshakeStop.StoppedIff | modules/SatelliteAgent/SatelliteAgent.cpp:182-233 | in every run the server of the running agent is stopped if and only if it answered an i_am_here with true or was told to go down by an "exit" call or a reset request, and a reset is due under the same condition, for the first cause only with a system module |
| HandshakeStop.ReconnectStops | modules/SatelliteAgent/SatelliteAgent.cpp:182-196 | after a detected re-connect the server is stopped and a reset due if possible; in every continuation of this incarnation no call leaves the wire, no worker RPC is served and nobody connects |
| HandshakeStop.HealsByReset | modules/SatelliteController/SatelliteController.cpp:77-99 | in every run, a controller told true can go on, without timeout or restart of its own, to an i_am_here that reaches the agent's next incarnation, if there is a system module |
| HandshakeStop.ToldStops | modules/SatelliteAgent/SatelliteAgent.cpp:222-235 | the same after an "exit" call or a reset request, with a reset due in any case; it comes from a controller connected to this incarnation |
| HandshakeStop.DetectedIff | modules/SatelliteAgent/SatelliteAgent.cpp:172-196 | in every run a waiting i_am_here of a second connection is answered with true if and only if init waits for its first signal or has returned |
| HandshakeStop.ReadyAnsweredIff | modules/SatelliteAgent/SatelliteAgent.cpp:217-254 | in every run a waiting i_am_ready can be answered if and only if the agent has registered its callbacks and said so |
| HandshakeStop.ReadyNeverRepeated | modules/SatelliteAgent/SatelliteAgent.cpp:202-215 | in no run does an agent incarnation get two i_am_ready calls, or an i_am_ready after the flag was set |
| HandshakeStop.Incarnations | modules/SatelliteController/SatelliteController.cpp:20-24 | in every run incarnations are counted by the restarts, and services by the worker RPCs, each for the two incarnations of its moment |
| HandshakeStuck.DetectionIsReachable | modules/SatelliteController/SatelliteController.cpp:88-99 | a run without restarts in which a lost answer makes the controller connect again and the agent detects it |
| HandshakeProgress.UsableWhenReady | modules/SatelliteController/SatelliteController.cpp:101-130 | after every fault-free start-up worker RPCs are served, "exit" and reset requests get through and the agent watches its controller |
| HandshakeProgress.RegularStep | modules/SatelliteAgent/SatelliteAgent.cpp:171-258 | without faults every step decreases a measure |
| HandshakeProgress.RegularEnabled | modules/SatelliteController/SatelliteController.cpp:77-107 | without faults no reachable state is deadlocked before both sides are ready |
| HandshakeProgress.Progress | modules/SatelliteController/SatelliteController.cpp:77-107 | every fault-free run has at most 30 steps, and can be continued until both sides are ready |
| HandshakeStuck.EscapesIffNotDoomed | modules/SatelliteAgent/SatelliteAgent.cpp:171-258 | in every reachable state the agent can get out of init or reset by itself if and only if the state is not doomed: an admitted controller lost before i_am_ready, with the lock held or no system module |
| HandshakeStuck.DoomedRun | modules/SatelliteAgent/SatelliteAgent.cpp:237-258 | a doomed agent stays doomed in every run without a restart from outside or an exit call |
| HandshakeStuck.ReconnectUndetected | modules/SatelliteAgent/SatelliteAgent.cpp:182-196 | a doomed agent with a system module answers no new i_am_here, stays in init, and no controller gets up with it |
| HandshakeStuck.DoomedIsReachable | modules/SatelliteController/SatelliteController.cpp:101-104 | restarting the controller just after its i_am_here was accepted leads to a doomed state |
| UploadSpec.FilteredIsSafe | modules/SystemAggregator/system/systemImpl.cpp:163-170 | a filtered file name has no slash and is neither "." nor ".."; a harmless name is kept as it is |
| UploadSpec.FilteredAfterSlash | modules/SystemAggregator/system/systemImpl.cpp:163-170 | of a path exactly the part after the last slash is kept, whatever precedes it, and nothing if that part is "." or ".." |
| UploadLaws.RejectedForEver | modules/SystemAggregator/system/systemImpl.cpp:97-160 | a rejected request blocks its log type in every later state; later requests of the type are taken for cancellations |
| UploadLaws.CancelledUntilFinish | modules/SystemAggregator/system/systemImpl.cpp:96-106 | a cancelled upload stays cancelled and records no feedback until its worker finishes, whatever else happens; its record is removed if and only if final feedback for it comes in the meantime |
| UploadLaws.CancelThenFresh | modules/SystemAggregator/system/systemImpl.cpp:96-121 | a cancellation changes nothing but the cancelled flag of the one upload; after the worker's end a request of the same type is passed to the boards again |
| UploadLaws.RunningUntilCancelled | modules/SystemAggregator/SystemAggregator.cpp:21-48 | while an upload runs every status for it but Uploading and Idle is counted, and a board fails exactly by a status that is none of Uploading, Idle and Uploaded, whatever else happens |
| UploadLaws.FileExpectedIff | modules/SystemAggregator/system/systemImpl.cpp:163-173 | from the request on a running upload expects the filtered name that a board announced, if and only if the board has sent no status but Uploading, Idle and Uploaded for it |
| UploadLaws.WaitDoneIffAllHeard | modules/SystemAggregator/system/systemImpl.cpp:198-205 | with one final feedback per board the count never passes N, the wait condition holds exactly when all boards have reported, and stays true |
| UploadLaws.WaitIsRightIff | modules/SystemAggregator/system/systemImpl.cpp:198-205 | after every feedback of an uncancelled upload the wait is over exactly if all boards have reported, if and only if fewer than N feedbacks came or none was a repetition |
| UploadLaws.MissedIff | modules/SystemAggregator/system/systemImpl.cpp:201-204 | once all boards have reported, the wait is over if and only if none repeated itself or the 32-bit counter has come round to N again |
| UploadLaws.PrematureIff | modules/SystemAggregator/system/systemImpl.cpp:201-204 | when N feedbacks end the wait, all boards have reported if and only if none repeated itself |
| UploadLaws.RepeatedFeedbackMissed | modules/SystemAggregator/system/systemImpl.cpp:201-204 | an input on which the wait goes on although all boards have reported |
| UploadLaws.RepeatedFeedbackPremature | modules/SystemAggregator/system/systemImpl.cpp:201-204 | an input on which the wait is over although a board has not reported |
| UploadLaws.ExpectedFiles | modules/SystemAggregator/system/systemImpl.cpp:218-226 | the helper's file arguments are, in ascending board order and once each, exactly the announced files of the boards that reported no failure |
| UploadRetry.Retry | modules/SystemAggregator/system/systemImpl.cpp:228-263 | the loop terminates at its first stop and has published what is recognised in its runs' output; UploadLines.LogTells says what that is |
| UploadRetry.RunHelper | modules/SystemAggregator/system/systemImpl.cpp:239-251 | each recognised line of the helper is published, in order; UploadLines.RunTells says as what |
| UploadLines.RunTells | modules/SystemAggregator/system/systemImpl.cpp:239-251 | there is one status for each line that is one of the five words, in order: Uploaded for "Uploaded" and UploadFailure for the four others |
| UploadLines.LogTells | modules/SystemAggregator/system/systemImpl.cpp:228-263 | the same for all runs of the loop together |
| UploadLines.RunsUntilUploaded | modules/SystemAggregator/system/systemImpl.cpp:228-263 | the loop ends at the first run whose last such line is "Uploaded", or after max_retries + 1 runs |
| UploadRetry.RunsUntilStop | modules/SystemAggregator/system/systemImpl.cpp:228-263 | the number of runs is the first successful one or max_retries + 1, whichever is smaller |
| UploadLines.EndsInUploaded | modules/SystemAggregator/system/systemImpl.cpp:239-261 | the published statuses end in Uploaded if and only if the last such line of one of the allowed runs is "Uploaded" |
| UploadLines.OneStatusPerRun | modules/SystemAggregator/logs_upload_helper.sh:26-48 | with one such line per run there is one published status per run, in order, and it tells how the run went |
| UploadRetry.LogStatuses | modules/SystemAggregator/system/systemImpl.cpp:240-249 | the loop publishes nothing but Uploaded and UploadFailure |
| UploadRetry.TerminatesIff | modules/SystemAggregator/system/systemImpl.cpp:188-189 | the loop ends if and only if max_retries is below the largest unsigned value or some run succeeds |
| UploadRetry.UnboundedIffMinusOne | modules/SystemAggregator/system/systemImpl.cpp:188 | of all int32 retry counts exactly -1 becomes the bound that is never exceeded; the others become the bound congruent to them modulo 2^32 |
| UploadAggregator.Dispatch | modules/SystemAggregator/system/systemImpl.cpp:135-176 | boards N-1 down to 0 are asked once each until one refuses, and the names of those that accepted are kept; the unsigned index terminates for every N, and every satellite index is in range |
| UploadAggregator.Aggregator.HandleUploadLogs | modules/SystemAggregator/system/systemImpl.cpp:82-176 | a request takes the specified step, is answered accordingly and starts a worker exactly if it is accepted, with the file name, location, retries and ids of the request; the boards asked are none for a cancellation, all if accepted, and down to the first refusal if rejected |
| UploadAggregator.Aggregator.Cancel | modules/SystemAggregator/system/systemImpl.cpp:97-106 | a request of a type in use cancels its live upload: the record of the stored id stops running, and nothing else changes |
| UploadAggregator.Aggregator.Register | modules/SystemAggregator/system/systemImpl.cpp:110-176 | a new upload becomes live with the announced files, or blocks its type if a board refuses; both maps get exactly its entry |
| UploadAggregator.Aggregator.OnLogStatus | modules/SystemAggregator/SystemAggregator.cpp:15-58 | final feedback is recorded for the running upload with its id and for no other, and removes the record of a cancelled one; waiters are notified exactly in the first case; an unknown id leaves the records unchanged; for every status but Uploading and Idle a running record counts one more and loses the board's name unless it was Uploaded, and a record that does not run is removed |
| UploadAggregator.Aggregator.OneWorkerPerType | modules/SystemAggregator/system/systemImpl.cpp:96-121 | at most one worker is alive per log type, with the id that the type map holds; a type in use without a worker is a rejected one |
| UploadAggregator.Aggregator.RunningIffAliveUncancelled | modules/SystemAggregator/system/systemImpl.cpp:96-160 | a record runs if and only if the worker of its upload is alive and not cancelled |
| UploadAggregator.RecordsSet | modules/SystemAggregator/SystemAggregator.hpp:65-67 | a slot and its record change together without disturbing the relation of all others: every live upload has the record that its history determines, no blocked type has a running one, and there is no record of any other id |
| UploadAggregator.TypesSet | modules/SystemAggregator/SystemAggregator.hpp:65-67 | the type map keeps exactly one entry per type in use, with distinct ids |
| UploadAggregator.CountedFeedback | modules/SystemAggregator/SystemAggregator.cpp:36-42 | after any feedback the record's count is the number of final feedbacks and its names are those of the boards without failure |
| UploadAggregator.Aggregator.BeginWait | modules/SystemAggregator/system/systemImpl.cpp:183-198 | the worker publishes Uploading with the id of the original request and starts to wait |
| UploadAggregator.Aggregator.FinishWorker | modules/SystemAggregator/system/systemImpl.cpp:198-280 | a cancelled upload runs the helper zero times and publishes nothing; any other runs it up to the first stop; its arguments and the files deleted at the end are the expected files, none if the record was removed; both map entries are freed and the worker ends |
| EventTransfer.Transfer.AddToEventList | modules/SatelliteAgent/SatelliteAgent.cpp:281-299 | the queue keeps exactly the first 1001 events since the last poll, and the first one dropped triggers the only reset; queue and resets after the call are given in terms of those before |
| EventTransfer.Transfer.AddToErrorEventList | modules/SatelliteAgent/SatelliteAgent.cpp:301-307 | no error event is ever dropped when it is queued |
| EventTransfer.Transfer.RetrieveVarsAndErrors | modules/SatelliteAgent/SatelliteAgent.cpp:551-572 | a poll moves both queues into the reply at once and opens the next window |
| EventTransfer.Transfer.DispatchReply | modules/SatelliteController/SatelliteController.cpp:123-231 | every event of a reply is published in order, every error forwarded in order |
| EventTransfer.Transfer.PublishVars | modules/SatelliteController/SatelliteController.cpp:132-219 | every event the agent can queue has a publisher, so none is skipped |
| EventTransfer.Transfer.Conservation | modules/SatelliteAgent/SatelliteAgent.cpp:281-307 | accepted events are those delivered, in the reply, or queued, in order; without overflow the delivered ones are a prefix of all produced; errors are conserved likewise |
| EventTransfer.Transfer.PublishedAsDelivered | modules/SatelliteController/SatelliteController.cpp:186-207 | event by event what is published is what was delivered; only an RFID token without connectors gets the one connector of the implementation's mapping, or else of the module's, or its EVSE |
| EventTransfer.Transfer.QueueKeepsFirst | modules/SatelliteAgent/SatelliteAgent.cpp:281-299 | the queue holds the first 1001 events since the last poll |
| EventVocabulary.SameVocabulary | modules/SatelliteController/SatelliteController.cpp:132-219 | the controller has a publisher for exactly the variables of each interface that the agent queues |
| EventTransfer.Transfer.OneReset | modules/SatelliteAgent/SatelliteAgent.cpp:284-298 | the queue never exceeds 1001 events, and there is one reset if and only if an event was dropped |

## Left out

- HandleUpdateFirmware: does not model the calls to the boards that follow the reset, nor the answer, which is the worst of theirs.
- FinishWorker: assumes for an uncancelled upload that the retry loop ends, which TerminatesIff characterises exactly.
- HandleUploadLogs: assumes, as the source says it does, that a new request's id is not the id of another type in use.
- OnLogStatus: says whether waiters are notified, but not when a notified worker wakes up; a wait may end at any time by timeout.
- Handshake.Apply: gives every handler call its own thread; rpclib, which may use fewer, is not part of this model.
- Handshake.Apply: combines each critical section that is not held across a wait into one step, and derives the two locks that are held from the position of the init thread.
- Handshake.Apply: takes the reset that an overflowing event queue triggers for a restart from outside; the overflow itself is part of EventTransfer.
- The handshake is a transition system on values, not a class: its locks, condition variables and threads have no counterpart in sequential code.
- Records of uploads are values stored in a map, as std::map stores them; aliasing into the map is not modelled.
- RPC transport, sockets, JSON and timeouts in seconds: messages, opaque payloads and steps that may happen at any time.
- The helper script, tar and curl: a run is an arbitrary sequence of output lines.
- The forwarding handlers of SatelliteController and SatelliteAgent, the reset, time and boot reason proxies: one call each.
- The library behind raise_error and clear_error is not part of this model; errors end at these calls.
- Random request ids, time stamps in file names and the address put into the upload URL are inputs or omitted.
- Losing a reply ends the controller; what was in it is lost with the session, which ends there.
