# Verified model of the ODC topology engine and its surroundings

ODC (the Online Device Control) drives thousands of FairMQ devices started by DDS through a common state
machine. This project models the parts of it where a mistake is hard to see in a test, and proves what they
keep in every run:

- **The asynchronous operations of `BasicTopology`.** One mutex-protected state holds the device table, the
  subscriber counter, the bookkeeping of collections and four maps of operations in flight (ChangeState,
  WaitForState, SetProperties, GetProperties). It is driven by subscription confirmations, state changes,
  failed transitions, ended tasks, property replies, timeouts and initiations, in any order.
  `TopologyModel.Step` says what one such event does; `TopologyObject.Topology` and the operation classes have
  the source's fields, loops and branches, and every method is shown to do exactly that step. The theorems are
  about all sequences of steps.
- **Resources.** `extractRequirements`, the two `makeParams`, `submit` and its recovery.
- **Channel addresses** in the FairMQ plugin: a consistent choice from values that arrive in any order.
- **The time budget** of a request, **state aggregation**, and the **command codec** on FlatBuffers tables.

| file | contents |
|---|---|
| Basics.dfy | facts about finite sets and sequences |
| TopologyDefs.dfy | states, transitions, device table, aggregation |
| AsioAsyncOp.dfy | single-shot completion |
| CountingOp.dfy | the counting protocol of ChangeState and WaitForState |
| PropertyOps.dfy | the reply protocols of SetProperties and GetProperties |
| TopologyModel.dfy | the state of a topology and `Step` |
| Handlers.dfy, Deliveries.dfy, Initiations.dfy | what each step does, said of table entries and operation fields alone |
| TopologyInvariants.dfy, Expendability.dfy, NoHang.dfy, EndToEnd.dfy, LockStep.dfy, Outcomes.dfy | theorems over runs |
| Surprises.dfy, Recovery.dfy | runs in which an expected property fails |
| StateOperations.dfy, PropertyOperations.dfy, OperationMaps.dfy, Topology.dfy | the objects, refining the model |
| DeviceCommands.dfy, Messages.dfy | a device's message, from its tables to a run of the topology |
| Resources.dfy, Extraction.dfy, ZoneExpansion.dfy | requirements, submission parameters, zones |
| Channels.dfy, ChannelRuns.dfy | a plugin's channels: one value, any number in any order, reset and binding |
| TimeBudget.dfy, CustomCommands.dfy | the smaller cores |

`dafny verify dfyconfig.toml` checks all of it.

## How to read the model

An operation carries, besides the source's counters, a history: the tasks counted at its start, the reports of
its tasks while it was open, and the calls of its completion handler. The history steers nothing; the
invariants (`CountingOp.Inv`, `SetPropertiesProtocol.Inv`, `GetPropertiesProtocol.Inv`) say what the counters
mean in terms of it. `Step` is composed of functions that the methods share; Handlers.dfy, Deliveries.dfy,
Initiations.dfy, Extraction.dfy and DeviceCommands.dfy say without these functions what comes out.
A run is a list of events; `RunFrom(s, es)` is the state after it. A handler call is an entry in `calls`.

A subset type of `int` stands for an enumeration over `int`, `% 0x1_0000_0000` for unsigned 32-bit arithmetic.

## Where the code differs from what is said about it

Promises that fail. Each is stated with the condition under which it holds, and with an input or a run in which
it does not.

- A device in Error makes the aggregated state Error, says the comment in `AggregateState`; the loop never tests
  the first active device (`TopologyDefs.AggregateErrorExactly`, `TopologyDefs.ErrorFirstIsMixed`).
- "Complete when the count reaches the number of tasks" means "all tasks have settled" only if no task was
  counted twice (`Outcomes.ChangeStateSettlesExactly`, `Outcomes.WaitForStateSettlesExactly`). The ordinary
  course of `End` counts a device twice, once for Exiting and once for the end of its task
  (`Surprises.NormalEndCountsTwice`), so that `End` on two idle devices completes without error while one is
  still idle (`Surprises.EndCompletesEarly`). `NoHang.NoRecountRun` excludes this course;
  `EndToEnd.SteadyRun`, under which devices are placed, does not (`Surprises.EndIsSteady`).
- For SetProperties it means "all tasks have answered" under the same condition
  (`Outcomes.SetPropertiesAnsweredExactly`). A device that fails and whose task then ends is counted twice unless
  it was found expendable (`Surprises.FailureCountsTwice`), so that the operation can complete while another
  device is running and has not answered (`Surprises.SetPropertiesCompletesEarly`).
- The error flag keeps the latest counted verdict: an error code always means a hard failure, and the codes tell
  hard failures exactly unless the latest counted failure is expendable and came after a hard one
  (`CountingOp.VerdictExactly`). `Stop` on two devices that fail in this order succeeds
  (`Surprises.MaskedFailureSucceeds`).
- nMin instances of a collection survive only if enough instances were started for the count of the requirements
  (`Expendability.FewestLeftExactly`, `Expendability.NMinKeptExactly`). Recovery after an incomplete submission
  corrects `mNinfo` but not that count, so a topology started with the agents it accepted can fall below nMin
  (`Recovery.RecoveredUndercutsNMin`, `Recovery.RecoveryLeavesTooFew`). On localhost it even accepts a single
  agent whatever nMin is (`Recovery.FewerAcceptedExactly`).
- A device bound again after a reset does not choose one out of N afresh: the values of the first round are kept.
  Once N have arrived, the channel never gets an address again (`ChannelRuns.ReboundChoosesExactly`,
  `ChannelRuns.NeverChosenAgain`).
- In the last second of its budget a request computes a timeout of 0, which arms no timer at all
  (`TimeBudget.TimerArmedExactly`).

Behaviour that may surprise, stated by the contracts named.

- GetProperties on no tasks is completed by its count only after 2^32 replies, and it counts replies of tasks it
  never addressed (`GetPropertiesProtocol.CompletesExactlyAt`).
- Initiating SetProperties erases completed GetProperties operations; completed SetProperties operations are
  never erased (`TopologyObject.Topology.AsyncSetProperties`, `TopologyInvariants.StepErasesNothingOpen`).
- Expendable tasks of an earlier topology stay expendable when requirements are extracted again
  (`Resources.Session.ExtractRequirements`).

## Model

| member | source | states |
|---|---|---|
| TopologyDefs.AggregateState | odc/TopologyDefs.h:226-252 | The loop computes exactly what `Aggregates` says without a loop: Error if an active device after the first one is in Error, else the common state of all active devices, else Mixed. |
| TopologyDefs.AggregateUnique | odc/TopologyDefs.h:226-252 | The device table determines the aggregated state. |
| TopologyDefs.AggregateMeansAll | odc/TopologyDefs.h:226-254 | For every state but Error: it is the aggregated state if and only if some device is active and all active devices are in it. |
| TopologyDefs.AggregateErrorExactly | odc/TopologyDefs.h:233-239 | Given a device in Error: the aggregated state is Error if and only if a device after the first active one is in Error or only one device is active. |
| TopologyDefs.ErrorFirstIsMixed | odc/TopologyDefs.h:233-252 | The failing tables: the first of two devices in Error and the other in any other state give Mixed. |
| TopologyDefs.ExpectedExactly | odc/TopologyDefs.h:73-84 | For every state exactly the transitions that are expected to end in it, and exactly two have no expected state. |
| AsyncOps.FirstAttemptWins | odc/AsioAsyncOp.h:216-240 | However often an open operation is completed or times out, its handler is called once, with the arguments of the first attempt. |
| AsyncOps.AsioAsyncOp.Complete | odc/AsioAsyncOp.h:211-225 | Completing an open operation calls the handler and closes it; completing a closed one throws and calls nothing. |
| CountingOp.DeliverInv | odc/TopologyOpChangeState.h:100-128 | Any report keeps the counting invariant: the count is the number of settled tasks plus the reports counted twice, the failed set and error flag are what the reports amount to, an open operation is below its number of tasks, and completion by count happened at equality with the right error code. |
| CountingOp.BeginInv | odc/TopologyOpChangeState.h:77-97 | The invariant holds after initiation with any set of tasks found settled. |
| CountingOp.CountedReportProgress | odc/TopologyOpChangeState.h:100-128 | No overshoot and a measure: a counted report lowers tasks minus count by exactly one, others leave it, and the operation is completed if and only if it is 0. |
| CountingOp.AllSettledCompletes | odc/TopologyOpChangeState.h:119-128 | If all tasks have settled, the operation is completed, however reports repeated. |
| CountingOp.CompletionIsExact | odc/TopologyOpChangeState.h:100-128 | Completed by count, as many tasks are unsettled as reports were counted twice; all are settled if and only if none was. |
| CountingOp.CompletesAtLastTask | odc/TopologyOpWaitForState.h:99-127 | While no task was counted twice, exactly the report that settles the last task completes the operation. |
| CountingOp.VerdictExactly | odc/TopologyOpChangeState.h:105-110 | A raised error flag always means a hard failure; it tells exactly whether any task failed hard if and only if the latest counted failure is not an expendable one after a hard one. |
| Surprises.NormalEndCountsTwice | odc/Topology.h:231-270 | From any state: a device that an open `End` waits for reports Exiting and its task ends with exit code 0; unless the first report completed the operation, it has counted the device twice. |
| Surprises.EndCompletesEarly | odc/TopologyOpChangeState.h:100-128 | A run of a newly constructed topology: two devices become idle; `End` completes without error when the first has exited and its task ended, while the second is idle and has not settled. |
| Surprises.EndIsSteady | odc/TopologyOpChangeState.h:100-128 | The theorems on steady runs apply to this run: its devices only repeat their outcome. |
| Surprises.MaskedFailureSucceeds | odc/TopologyOpChangeState.h:105-110 | A run of a newly constructed topology: two devices become running and fail during `Stop`, the expendable one last; the operation completes without error although the other is in Error, not ignored and known to have failed hard. |
| Surprises.FailureCountsTwice | odc/TopologyOpSetProperties.h:88-108 | From any state: a device that an open SetProperties waits for reports Error and its task ends; unless the first report completed the operation, it has counted the device twice, or once if it was found expendable. |
| Surprises.SetPropertiesCompletesEarly | odc/Topology.h:477-511 | A run of a newly constructed topology: one of two running devices fails and its task ends; SetProperties is completed and reports the other one too, which is running and has not answered. |
| SetPropertiesProtocol.DeliverInv | odc/TopologyOpSetProperties.h:88-108 | Any reply keeps the invariant: outstanding are the tasks without a clearing reply, the count is the failed ones at the start plus the counted replies, no overshoot. |
| SetPropertiesProtocol.CountedReplyProgress | odc/TopologyOpSetProperties.h:88-121 | No overshoot and a measure for SetProperties. |
| SetPropertiesProtocol.AllAnsweredCompletes | odc/TopologyOpSetProperties.h:73-121 | Once every task was failed at the start or has replied, the operation is completed. |
| SetPropertiesProtocol.SuccessExactly | odc/TopologyOpSetProperties.h:73-121 | Pigeonhole: completed by count, it succeeded if and only if no task was failed at the start and each contributed exactly one counted reply, an acknowledgement or an expendable failure. |
| SetPropertiesProtocol.CompletionIsExact | odc/TopologyOpSetProperties.h:73-121 | Completed by count, as many tasks are unanswered as counted replies came from tasks that had answered before; none is if and only if none was counted twice. |
| SetPropertiesProtocol.ReportedSet | odc/TopologyOpSetProperties.h:53-58 | Completed in any way, it reports exactly the tasks that neither acknowledged nor failed expendably. |
| GetPropertiesProtocol.DeliverInv | odc/TopologyOpGetProperties.h:79-111 | Any reply keeps the invariant: result and failed set are what the replies amount to, and the 32-bit counter equals their number. |
| GetPropertiesProtocol.CompletesExactlyAt | odc/TopologyOpGetProperties.h:79-111 | A reply completes the operation if and only if it is the one whose number is the number of tasks, 2^32 for none. |
| GetPropertiesProtocol.SuccessExactly | odc/TopologyOpGetProperties.h:64-110 | Pigeonhole: for a non-empty set of tasks, completed by count, it succeeded if and only if every reply was Ok and there was exactly one per addressed task and none from others; the result then maps each task to its reply. |
| TopologyInvariants.RunSubscribers | odc/Topology.h:428-475 | In every run the counter of state change publishers equals the number of devices flagged as subscribed, so it never wraps around and 0 means nobody. |
| TopologyInvariants.StepSubscribers | odc/Topology.h:329-338 | Every single handler keeps that equality, including the one that ignores a whole collection. |
| TopologyInvariants.StepGood | odc/Topology.h:477-553 | Every event keeps the device table consistent and the counting invariant of every operation of every kind. |
| TopologyInvariants.RunGood | odc/Topology.h:477-880 | So does every run. |
| TopologyInvariants.NoOvershoot | odc/Topology.h:594-596 | In every run every open ChangeState, WaitForState or SetProperties operation counts below its number of tasks. |
| TopologyInvariants.RunConserves | odc/Topology.h:513-599 | Conservation: in every run every operation ever initiated, erased ones included, has called its handler exactly once if completed and never if open. |
| TopologyInvariants.StepErasesNothingOpen | odc/Topology.h:571-577 | No open operation is erased from its map, and no SetProperties operation at all. |
| TopologyInvariants.StepForgetsNothing | odc/Topology.h:784-790 | Every initiated operation is in its map or among the erased ones forever. |
| Handlers.StateChangeReckons | odc/Topology.h:477-497 | Every field of every table entry after a state change. It is a failure exactly for Error, or Exiting from a state other than Idle; then an expendable device is ignored, otherwise an instance is taken off its collection's count and ignored as a whole if enough are left; any other report changes nothing of that. |
| Handlers.TaskDoneReckons | odc/Topology.h:231-262 | The same for the end of a task, a failure unless the device was Idle or Exiting and the exit code is not positive; it is then in Error, else in Exiting, with the exit code, signal and last state recorded and its subscription gone. |
| Handlers.SubscriptionSays | odc/Topology.h:428-475 | A confirmed subscription or unsubscription sets the flag of its device, and nothing else changes; a failed one changes nothing. |
| Deliveries.StateChangeInforms | odc/Topology.h:488-506 | Every open ChangeState and WaitForState operation that addressed the device counts a hit, a first failure or nothing, with flag, completion, code and handed-over table; SetProperties operations hear of failures only, GetProperties operations of nothing. |
| Deliveries.TaskDoneInforms | odc/Topology.h:242-269 | The same for the end of a task, with the state before and after it. |
| Deliveries.TransitionStatusSays | odc/Topology.h:513-529 | A failed transition ends as invalid exactly the open ChangeState operations that address the device and have another target; nothing else changes. |
| Deliveries.ChangeTimeoutSays | odc/TopologyOpChangeState.h:55-63 | A timeout ends the one operation, if open, with its code and the table; all others stay. |
| Deliveries.WaitTimeoutSays | odc/TopologyOpWaitForState.h:55-63 | The same for WaitForState. |
| Deliveries.SetTimeoutSays | odc/TopologyOpSetProperties.h:51-59 | The same for SetProperties, with the outstanding devices. |
| Deliveries.GetTimeoutSays | odc/TopologyOpGetProperties.h:51-59 | The same for GetProperties, with the result so far. |
| Deliveries.PropertiesSetSays | odc/Topology.h:543-553 | A reply to SetProperties reaches the one operation: an acknowledgement counts and takes the device off the outstanding ones; a failure counts for an outstanding device, which stays so. |
| Deliveries.PropertiesReplySays | odc/Topology.h:531-541 | A reply to GetProperties: the first properties of a device are kept, the 32-bit count goes up, and the result is handed over when it reaches the number of tasks. |
| Initiations.AsyncChangeStateSays | odc/Topology.h:563-599 | The new operation addresses exactly the matched tasks whose device is not ignored, has counted exactly those at the target, in Error or in Exiting, and is completed at once if these are all; completed ChangeState operations are erased, nothing else changes. |
| Initiations.AsyncWaitForStateSays | odc/Topology.h:682-715 | The same for WaitForState with both targets. |
| Initiations.AsyncSetPropertiesSays | odc/Topology.h:846-880 | The same for SetProperties, all of whose tasks are outstanding; completed GetProperties operations are erased. |
| Initiations.AsyncGetPropertiesSays | odc/Topology.h:776-806 | The same for GetProperties, which starts with an empty result and all tasks failed. |
| Initiations.IgnoredExactly | odc/Topology.h:290-349 | After a failure the device is ignored if and only if it was ignored or expendable before or its instance could be spared. |
| Initiations.LetOffIsSpared | odc/Topology.h:157-186 | Once a failure was let off, whatever happens, no operation of any kind initiated later addresses the device. |
| Deliveries.UnknownTask | odc/Topology.h:477-511 | A report of an unknown task changes nothing. |
| Outcomes.SetPropertiesSucceedsExactly | odc/Topology.h:543-553 | The SetProperties pigeonhole in every run of a topology. |
| Outcomes.SetPropertiesAnsweredExactly | odc/TopologyOpSetProperties.h:73-121 | The same exact count of unanswered tasks in every run of a topology. |
| Outcomes.SetPropertiesReportsExactly | odc/TopologyOpSetProperties.h:53-58 | What SetProperties reports in every run. |
| Outcomes.ReplyDecides | odc/Topology.h:543-553 | A reply of a device that SetProperties waits for counts once; the device stays outstanding if and only if it is a failure, and a completion by it then carries the error code and reports the device. |
| Outcomes.SuccessWasNotRefused | odc/TopologyOpSetProperties.h:88-121 | A SetProperties completed by count without error received, at no moment of the run, a failure reply or a failure not let off of a device it was waiting for. |
| Outcomes.GetPropertiesSucceedsExactly | odc/Topology.h:531-541 | The GetProperties pigeonhole in every run of a topology. |
| Outcomes.ChangeStateSettlesExactly | odc/TopologyOpChangeState.h:100-128 | In every run a ChangeState completed by count leaves as many tasks unsettled as it counted twice, an error code means that a task failed hard, and the code tells this exactly if and only if no hard failure is hidden at the end. |
| Outcomes.WaitForStateSettlesExactly | odc/TopologyOpWaitForState.h:99-127 | The same for a WaitForState with any pair of target states. |
| Expendability.NMinSafety | odc/Topology.h:305-343 | In every run at most max(0, n - nMin) instances of a collection are ignored as a whole, none if nMin is 0, and while nCurrent is at least nMin > 0 it equals n minus that number. |
| Expendability.BudgetIsReachable | odc/Topology.h:305-343 | The bound is met: from any new topology, failing one device in each of up to n - nMin instances ignores exactly these instances. |
| Expendability.FewestLeftExactly | odc/Topology.h:290-349 | With f the number of instances that have a device that is not expendable: no run of a topology without ignored devices leaves fewer than instances - min(f, max(0, n - nMin)), and if nMin is not 0 some run leaves exactly that many. |
| Expendability.NMinKeptExactly | odc/Topology.h:290-349 | The promise that nMin instances survive holds in all such runs if and only if nMin is at most 0 or that number is at least nMin. |
| Recovery.FewerAcceptedExactly | odc/Controller.cpp:174-195 | Fewer agents than requested for a collection alone in its agent group are accepted if and only if they meet its nMin or, on localhost, there is exactly one. |
| Recovery.RecoveredUndercutsNMin | odc/Controller.cpp:174-204 | After a recovery that accepted fewer agents for a collection alone in its agent group, among any other collections, the topology started with that many instances has a run that leaves fewer than nMin if and only if nMin > 0 and launched - min(f, max(0, requested - nMin)) < nMin. |
| Recovery.RecoveryLeavesTooFew | odc/Controller.cpp:174-204 | Such a case, with a newly constructed topology: two instances requested, nMin 1, one agent launched, and its only device fails. |
| Expendability.VerdictStable | odc/Topology.h:290-349 | Asked about a device at two moments of a run, `IsExpendable` answers the same, whatever lies between. |
| Expendability.VerdictDecidesIgnored | odc/Topology.h:290-349 | After a verdict the device is ignored from then on if and only if it was found expendable. |
| NoHang.ChangeStateNeverHangs | odc/Topology.h:477-511 | In every run, once each addressed task has settled at the start or reported a settling state or ended, the ChangeState operation has completed. |
| NoHang.WaitForStateNeverHangs | odc/TopologyOpWaitForState.h:76-127 | The same for WaitForState with any pair of target states. |
| NoHang.ChangeStateCountsExactly | odc/TopologyOpChangeState.h:77-128 | In runs in which no settled task is counted again the count is always the number of settled tasks and completion by count comes with the last one, for any transition and path. |
| NoHang.WaitForStateCountsExactly | odc/TopologyOpWaitForState.h:76-127 | The same for any pair of target states and any path. |
| EndToEnd.ChangeStatePlacesDevices | odc/Topology.h:563-599 | Any path, completed by count with either code, in runs in which settled devices only repeat their outcome: in the table handed to the handler a device on the path that is not ignored is in the expected state if and only if it has settled and not failed hard. |
| EndToEnd.ChangeStateEndToEnd | odc/Topology.h:563-599 | In such runs, completed without error and with no hard failure hidden at the end, all devices on the path that are not ignored are in the expected state if and only if all of them have settled, which is certain if none was counted twice; if the path matched all devices, the aggregated state is then the expected one. |
| LockStep.StepInStep | odc/TopologyOpWaitForState.h:76-127 | A ChangeState and a WaitForState that are both open or both not, and equal in count, failed set, error flag and outcome while both are in their maps, stay so if and only if the event does not end one of them alone while open: its own timeout, or the failed transition of an addressed device that is not at the target. |
| LockStep.ChangeAndWaitInLockStep | odc/TopologyOpWaitForState.h:76-127 | ChangeState and WaitForState without a last state, started together on the same tasks, stay so over every run without such an event. |
| StateOperations.ChangeStateOp.ResetCount | odc/TopologyOpChangeState.h:77-97 | Counts exactly the addressed tasks at the target, in Error or in Exiting, and flags an error if and only if one of the latter is not at the target. |
| StateOperations.ChangeStateOp.Update | odc/TopologyOpChangeState.h:100-116 | The object makes the model's `Deliver` step. |
| StateOperations.ChangeStateOp.TryCompletion | odc/TopologyOpChangeState.h:119-128 | The object makes the model's completion step. |
| StateOperations.WaitForStateOp.ResetCount | odc/TopologyOpWaitForState.h:76-96 | Counts exactly the addressed tasks that satisfy the wait or have failed. |
| StateOperations.WaitForStateOp.Update | odc/TopologyOpWaitForState.h:99-115 | The object makes the model's `Deliver` step. |
| PropertyOperations.SetPropertiesOp.ResetCount | odc/TopologyOpSetProperties.h:73-85 | Counts the failed tasks and lists every task as outstanding. |
| PropertyOperations.SetPropertiesOp.Update | odc/TopologyOpSetProperties.h:88-108 | The object makes the model's step. |
| PropertyOperations.GetPropertiesOp.Update | odc/TopologyOpGetProperties.h:79-87 | The object makes the model's step, for any task and even when completed. |
| TopologyObject.Topology.constructor | odc/Topology.h:87-131 | A new topology has one device per task, consistently indexed and in no known state, nobody subscribed and no operation. |
| TopologyObject.Topology.IsExpendable | odc/Topology.h:290-349 | The in-place loop and counters give the model's verdict and the model's table after it. |
| TopologyObject.Topology.CollectTasks | odc/Topology.h:157-186 | Lists exactly the matched tasks whose device is not ignored, each once. |
| TopologyObject.Topology.HandleSubscription | odc/Topology.h:428-451 | Exactly the model's step. |
| TopologyObject.Topology.HandleUnsubscription | odc/Topology.h:453-475 | Exactly the model's step. |
| TopologyObject.Topology.HandleStateChange | odc/Topology.h:477-511 | Exactly the model's step: table, verdict, and all operations in every map. |
| TopologyObject.Topology.HandleTaskDone | odc/Topology.h:231-270 | Exactly the model's step. |
| TopologyObject.Topology.HandleTransitionStatus | odc/Topology.h:513-529 | Exactly the model's step. |
| TopologyObject.Topology.HandleProperties | odc/Topology.h:531-541 | Exactly the model's step. |
| TopologyObject.Topology.HandlePropertiesSet | odc/Topology.h:543-553 | Exactly the model's step. |
| TopologyObject.Topology.ExpireChangeState | odc/TopologyOpChangeState.h:55-63 | A timer's handler makes the model's timeout step. |
| TopologyObject.Topology.ExpireWaitForState | odc/TopologyOpWaitForState.h:55-63 | The same for WaitForState. |
| TopologyObject.Topology.ExpireSetProperties | odc/TopologyOpSetProperties.h:51-59 | The same for SetProperties, which reports its outstanding tasks. |
| TopologyObject.Topology.ExpireGetProperties | odc/TopologyOpGetProperties.h:51-59 | The same for GetProperties, which hands over its result so far. |
| TopologyObject.Topology.AsyncChangeState | odc/Topology.h:563-599 | Purge, task selection, count and first completion test make the model's initiation; transitions without an expected state throw after the purge. |
| TopologyObject.Topology.AsyncWaitForState | odc/Topology.h:682-715 | Exactly the model's initiation. |
| TopologyObject.Topology.AsyncGetProperties | odc/Topology.h:776-806 | Exactly the model's initiation. |
| TopologyObject.Topology.AsyncSetProperties | odc/Topology.h:846-880 | Exactly the model's initiation, purging the GetProperties operations. |
| DeviceCommands.StateChangeArrives | odc/cc/CustomCommands.cpp:176-480 | From the device to the table: after the message with a StateChange has been serialized, deserialized and handled, the table has the reported states. |
| DeviceCommands.SubscriptionArrives | odc/cc/CustomCommands.cpp:176-480 | The same for a confirmed or failed subscription or unsubscription and the device's flag. |
| DeviceCommands.AnswerArrives | odc/cc/CustomCommands.cpp:176-480 | The same for PropertiesSet, which reaches the operation it names with its sender and result. |
| DeviceCommands.PropertiesArrive | odc/cc/CustomCommands.cpp:176-480 | The same for Properties. |
| DeviceCommands.FailedTransitionArrives | odc/cc/CustomCommands.cpp:176-480 | The same for a failed TransitionStatus, which ends the operations that wait for the device. |
| DeviceCommands.OthersIgnored | odc/Topology.h:398-424 | Any other command changes nothing. |
| Messages.HandleMessage | odc/Topology.h:390-426 | A decoded message takes the object through the run of its commands, in order; one that cannot be decoded changes nothing. |
| Messages.HandleCommand | odc/Topology.h:398-424 | Each command reaches the handler of its kind; unexpected kinds change nothing. |
| Resources.ReadRequirements | odc/Controller.cpp:855-892 | The last requirement of each kind counts, the zone defaults to the agent group, nMin counts only in a group; a number that cannot be read throws. |
| Resources.ReadExpendables | odc/Controller.cpp:782-804 | A task is expendable if and only if one of its `odc_expendable_*` requirements is "true"; tasks are only added. |
| Resources.Session.ExtractRequirements | odc/Controller.cpp:768-925 | Expendable tasks are added to those known, stand-alone tasks are those in groups other than main; each agent group has the sums of instances and tasks of its collections and the rest from the last one; collections, first n infos and zone groups are what the topology says; on a throw they are those of the collections before it. |
| Extraction.GroupIsLast | odc/Controller.cpp:855-862 | The agent group is that of the last requirement of the kind, or none. |
| Extraction.ZoneIsLast | odc/Controller.cpp:871-892 | The zone is the last one given, or the agent group if that is none or empty. |
| Extraction.CoresAreLast | odc/Controller.cpp:869-870 | The cores are those of the last such requirement, or 0. |
| Extraction.NMinIsLast | odc/Controller.cpp:873-880 | nMin is 0 outside of a group, else the last one given as a signed 32-bit number. |
| Extraction.ReadableExactly | odc/Controller.cpp:869-880 | Which collections can be read: every number of cores, and in a group every nMin, is a number. |
| Extraction.ExpendableExactly | odc/Controller.cpp:782-804 | A task is expendable if and only if one of its flags has the value "true". |
| Extraction.StandaloneAdds | odc/Controller.cpp:808-836 | The stand-alone tasks of two lists are those of the first followed by those of the second. |
| Extraction.StandaloneOfOne | odc/Controller.cpp:808-836 | A task outside of main is listed with its name, its own zone and agent group, its parent and its count; one in main is not. |
| Extraction.SumsAdd | odc/Controller.cpp:897-906 | Agents, slots and tasks of an agent group add up over the collections. |
| Extraction.SumsOfOne | odc/Controller.cpp:897-924 | What a single collection contributes to its agent group and its zone. |
| Extraction.CollectionKept | odc/Controller.cpp:894-895 | Every number kept of a collection is that of the last one of its name; both counts are its n, the total its n times its tasks. |
| Extraction.GroupKept | odc/Controller.cpp:897-906 | Agents and slots of an agent group are the sums, the rest is that of its last collection. |
| Extraction.NInfoKept | odc/Controller.cpp:908-915 | What is kept for recovery is that of the first collection of a name that has an agent group. |
| Resources.MakeParams | odc/DDSSubmit.h:100-143 | In some order of the agent groups, each once: one set per group, or as many one-agent sets as agents on localhost. |
| Extraction.SetsOfGroup | odc/DDSSubmit.h:107-140 | Every field of every set for an agent group, with the files of its zone if configured, and how many sets there are. |
| Resources.GroupIsCovered | odc/DDSSubmit.h:107-140 | Agents times slots summed over a group's sets is (sum of n)(sum of tasks), split or not, and at least the tasks of all its collections. |
| Resources.CountedExactly | odc/Controller.cpp:99-120 | What `submit` adds up with 32-bit products never exceeds what the sets ask for and equals it if and only if no product overflows. |
| Resources.SubmissionCountsNeed | odc/Controller.cpp:99-120 | For extracted resources the sum is what all agent groups need if and only if no group submitted as one set needs 2^32 slots. |
| Resources.Session.Submit | odc/Controller.cpp:70-166 | A session that is not running or whose sets cannot be made changes nothing; a clean submission raises the total slots by that sum; otherwise the outcome, the slots and the n infos are those of the recovery, or those of the failure if the session has stopped meanwhile. |
| Resources.Session.AttemptRecovery | odc/Controller.cpp:168-214 | Recovery succeeds if and only if every set has its agents or, with an nMin, at least that many; it corrects n infos and slots and leaves the collections. |
| Extraction.LaunchedCounted | odc/Controller.cpp:125-150 | Which agent groups are counted and how often each occurs among the launched agents. |
| Extraction.RecoverableExactly | odc/Controller.cpp:174-195 | Recovery is possible if and only if for every set as many agents of its group were launched as it asks for, or at least its minimum, which is not 0. |
| Extraction.CorrectedFields | odc/Controller.cpp:199-207 | A corrected entry has the launched agents as current count and is otherwise unchanged. |
| ZoneExpansion.ExpandZones | odc/DDSSubmit.h:171-195 | The zone loop throws if and only if a zone was not provided or has no groups; otherwise every agent group of every zone has its set in its place, and sets not chosen are unchanged. |
| ZoneExpansion.PlacesDistinct | odc/DDSSubmit.h:189-193 | No two agent groups of the topology share a set. |
| ZoneExpansion.EverySetAccountedFor | odc/DDSSubmit.h:171-195 | Every set of the result is an unchosen one of the plugin or that of an agent group; the total is the original count plus the groups but one of each zone. |
| ZoneExpansion.GroupsSurviveTogether | odc/DDSSubmit.h:181-202 | All groups of a zone survive the zero-agent filter if the first one asks for cores or the plugin gave the zone agents, none otherwise; each carries its own cores and group. |
| ZoneExpansion.SurvivorsExactly | odc/DDSSubmit.h:197-202 | The filter removes exactly the sets without agents. |
| ZoneExpansion.MakeParams | odc/DDSSubmit.h:145-217 | The whole overload: it throws if and only if a zone was not provided or has no groups; otherwise the list holds exactly one set, with the nMin of the group's first collection, for every agent group that survives and for every surviving set the plugin provided for no zone, and nothing else. |
| ZoneExpansion.SubmittedFields | odc/DDSSubmit.h:171-214 | Every field of every submitted set: the plugin's; or for an agent group of a zone those of the plugin's first set for it, with the group's name and cores and one agent if the zone's first group asks for cores. The minimum is the nMin of the first collection of the agent group, unsigned, or the plugin's. |
| ZoneExpansion.PluginSubmitted | odc/DDSSubmit.h:197-202 | Every set of the plugin that has agents and is not its first for a zone is submitted. |
| ZoneExpansion.GroupSubmitted | odc/DDSSubmit.h:171-202 | So is one for every agent group of a zone whose first group asks for cores or that the plugin gave agents. |
| ZoneExpansion.SubmittedInOrder | odc/DDSSubmit.h:171-202 | The order of the sets: those that stand in for the plugin's come first and in its order, the further agent groups after them zone by zone. |
| ZoneExpansion.FewerAcceptedForSet | odc/Controller.cpp:174-195 | For such a set recovery accepts fewer agents than requested if and only if they meet the nMin of the first collection of its agent group. |
| Channels.IofN.Push | plugins/fmq/ODC.cpp:254-264 | One push: only the value that completes the N decides, by the I-th of the sorted values or with an exception if there is none. |
| ChannelRuns.ChannelGetsChosenAddress | plugins/fmq/ODC.cpp:252-297 | Whatever arrives for a channel that takes one out of N, in any order and among any values of other channels: the property of a sub-channel is the address selected from the I-th smallest of the first N values if they have arrived, an address can be selected and it is the channel's only sub-channel; otherwise it is as it was. |
| ChannelRuns.ChannelGetsPublished | plugins/fmq/ODC.cpp:252-309 | If the I-th smallest of the N values joins what some device bound, the property of the only sub-channel is the address meant for this device. |
| ChannelRuns.CollectChoice | plugins/fmq/ODC.cpp:252-281 | Such a channel has a single value from the message on that completes N values, the ones kept from before included: the address selected from the I-th smallest, entered for that message's sender; it has none before, and none ever if they were complete before. |
| ChannelRuns.ChoiceIndependent | plugins/fmq/ODC.cpp:252-264 | The value chosen is the same for every arrival order of the same N messages, repeated values included. |
| ChannelRuns.DevicesChooseConsistently | plugins/fmq/ODC.cpp:252-264 | Two devices sent the same N distinct values in whatever orders choose the same one if and only if they have the same index. |
| Channels.IthHasIBelow | plugins/fmq/ODC.cpp:257-259 | The chosen one of distinct values has exactly I values below it. |
| Channels.SplitJoin | plugins/fmq/ODC.cpp:303-309 | Splitting what a binding device published by joining gives its addresses back. |
| Channels.SelectsPublished | plugins/fmq/ODC.cpp:266-280 | Of the addresses that were bound and joined, a device takes the only one whatever its index, the first one without an index, and else the one of its index, or throws if there is none. |
| Channels.LeExactly | plugins/fmq/ODC.cpp:258 | The order of the sorted values is decided by the first difference, a prefix comes first. |
| Channels.PublishChannel | plugins/fmq/ODC.cpp:282-295 | If as many values as sub-channels have arrived, sub-channel i gets the value of the i-th smallest sender; otherwise, and for properties that do not exist, nothing changes. |
| Channels.Plugin.constructor | plugins/fmq/ODC.cpp:38-45 | A new plugin has no channels and has collected nothing. |
| Channels.Plugin.EmptyChannelContainers | plugins/fmq/ODC.cpp:145-149 | A reset takes away the connecting channels with their values, and nothing else. |
| Channels.Plugin.FillChannelContainers | plugins/fmq/ODC.cpp:156-222 | The connecting channels are entered; indexes and choices out of N are inserted in order unless they exist, up to the first that names no connecting channel; values collected for existing choices stay. Filled anew, the plugin is at the start of a run. |
| Channels.FilledAtStart | plugins/fmq/ODC.cpp:156-222 | A new or reset plugin, filled, has exactly the configured channels with their numbers of sub-channels and no values. |
| Channels.ConnectedExactly | plugins/fmq/ODC.cpp:160-175 | A channel that connects gets its number of sub-channels and keeps its values; the others stay. |
| Channels.FilledPicks | plugins/fmq/ODC.cpp:188-222 | Choices out of N are filled only if every index names a connecting channel. |
| Channels.InsertedEnters | plugins/fmq/ODC.cpp:192-218 | A configured index or choice is entered if it is the first of its name, the name is new and all names up to it are connecting channels. |
| Channels.InsertedOnly | plugins/fmq/ODC.cpp:192-218 | Nothing else is entered. |
| Channels.Plugin.HandleValue | plugins/fmq/ODC.cpp:254-297 | What one arriving value does to the channel's values and to all address properties, in every branch. |
| ChannelRuns.HandleQueue | plugins/fmq/ODC.cpp:238-297 | The values handed to the plugin one by one make it go through the run of them. |
| ChannelRuns.ReboundChoosesExactly | plugins/fmq/ODC.cpp:145-222 | A channel that takes one out of N, reset and bound again, gets an address in the second round if and only if the values of both rounds complete N, those of the first did not, and an address can be selected. |
| ChannelRuns.NeverChosenAgain | plugins/fmq/ODC.cpp:145-222 | If N values had arrived before the reset, no address property of the channel changes in any run after it. |
| Channels.KeyAtRank | plugins/fmq/ODC.h:38-44 | The i-th key in map order has exactly i keys below it. |
| ChannelRuns.RunFollowsMessages | plugins/fmq/ODC.cpp:254-297 | However the values of all channels interleave, the state of each channel is a function of its own messages alone. |
| ChannelRuns.SubChannelsGetAddresses | plugins/fmq/ODC.cpp:266-297 | When as many senders have provided addresses for a channel as it has sub-channels, in any order, repeatedly and among any values of other channels, the property of sub-channel i is the address selected from the first message of the sender with exactly i senders below it. |
| ChannelRuns.SubChannelsGetPublished | plugins/fmq/ODC.cpp:266-309 | From binding to connecting devices: with messages that join what their senders bound, that property is the address itself: the sender's only one, its first one without an index, and else the one of the index. |
| ChannelRuns.AddressesWait | plugins/fmq/ODC.cpp:282-295 | As long as fewer senders have provided addresses, the properties are as they were, and those of channels that do not connect always are. |
| ChannelRuns.AddressesIndependent | plugins/fmq/ODC.cpp:266-297 | Two runs that bring a channel the same messages in different orders give each of its sub-channels the same address. |
| TimeBudget.RequestWithinBudget | odc/Controller.h:159-169 | However many successive operations a request performs, each within the positive timeout it was granted, all end less than 1 ms after the configured timeout. |
| TimeBudget.OverrunHappens | odc/Controller.h:159-169 | The bound is sharp: every overrun below 1 ms happens. |
| TimeBudget.TimerArmedExactly | odc/Controller.h:168 | A positive timeout is granted if and only if a whole second is left, to the millisecond. |
| TimeBudget.GrantedIsRemaining | odc/Timer.h:23-26 | The granted time exceeds what is left by less than 1 ms and falls short of it by less than 1 s. |
| TimeBudget.OverdueTruncates | odc/Controller.h:159-169 | Once the budget is used up, the overrun is computed, negative, in whole seconds towards zero. |
| CustomCommands.StateTablesInverse | odc/cc/CustomCommands.cpp:45-77 | The state tables are mutually inverse and throw outside of their range. |
| CustomCommands.TransitionTablesInverse | odc/cc/CustomCommands.cpp:79-103 | The transition tables are mutually inverse. |
| CustomCommands.RoundTripOne | odc/cc/CustomCommands.cpp:187-345 | Every command of the fifteen kinds is decoded from its table, defaults elided and restored. |
| CustomCommands.EncodeInjective | odc/cc/CustomCommands.cpp:187-345 | No two commands have the same table. |
| CustomCommands.EnumerationsAgree | odc/cc/CustomCommandsFormat.fbs:3-40 | Both sides number states, transitions and results alike. |
| CustomCommands.DecodableExactly | odc/cc/CustomCommands.cpp:371-480 | A table can be decoded if and only if its id is one of the fifteen and the fields its kind needs are there and in range; only another id is not recognized. |
| CustomCommands.DecodedFields | odc/cc/CustomCommands.cpp:371-480 | What is decoded has the kind of the id, and the device, task and result the table says, 0 for what it does not. |
| CustomCommands.DecodedNumbers | odc/cc/CustomCommands.cpp:371-480 | The same for request ids, intervals, transitions and states. |
| CustomCommands.DecodedTexts | odc/cc/CustomCommands.cpp:371-480 | The same for queries, configurations and properties. |
| CustomCommands.WireOfDevice | odc/cc/CustomCommands.cpp:240-345 | Every field of the table of every command that devices send. |
| CustomCommands.WireOfController | odc/cc/CustomCommands.cpp:187-240 | Every field of the table of every command that the controller sends. |
| CustomCommands.Cmds.Deserialize | odc/cc/CustomCommands.cpp:371-480 | The list becomes the commands before the first table that cannot be decoded, and the error is that table's. |
| CustomCommands.RoundTrip | odc/cc/CustomCommands.cpp:176-480 | Deserializing the serialization of any list of commands gives the same list. |

## Left out

- Messages.HandleMessage: the handlers lock per command, so steps of other threads between the commands of one message are not expressed here; the runs of `Step`, which interleave all events, cover them.
- DDS, FairMQ's own state machine and Boost.Asio: DDS data are given maps and sequences, a timer is a timeout
  event that may come at any moment, dispatching a handler appends to a history.
- The choice of the tasks that match a path is a parameter of an initiation; `GetTasks` filters what it is given.
- One lifetime of a topology: the tasks, collections and their names are those it was constructed with, and every task a path matches is one of them.
- Fresh operation ids: `uuidHash` is assumed never to give the id of an earlier operation; an initiation with a used id is not a step.
- Messages about unknown tasks change nothing in the model; the source logs an exception, or lets it escape in the task-done callback.
- An exception thrown by `Timeout` on a completed operation ends in the executor; in the model it changes nothing.
- `AsyncSetProperties`, `AsyncGetProperties`, `AsyncChangeState`: sending the command to the devices.
- The heartbeat, `WaitForPublisherCount`, and the destructor with its cancel loop, which stops at the first completed operation.
- `IgnoreFailedTask` and `IgnoreFailedCollections`: they are not among the events.
- Signed 32-bit overflow of `nCurrent`, `numAgents`, `numSlots` and `numTasksTotal`, which C++ leaves undefined: these are unbounded.
- Reading requirement names and numbers from text: a requirement comes with what `stoi` or `stoll` makes of it.
- `extractRequirements`: an error while the topology file is opened, before anything is cleared.
- `submit`: the errors' texts, the list of hosts and the slots of each agent; what DDS answers is a parameter.
- Parsing of the resource plugin's XML: the sets it describes are given.
- Reading the plugin's configuration strings `dds-i` and `dds-i-n`, and its binding channels: connecting channels, indexes and choices are given, and the filling does not stop at a channel that neither binds nor connects.
- The plugin's wait for permission to update: values are handled after the channels have been filled.
- FlatBuffers bytes and JSON text: a table is a record of optional fields, and reading a missing string, which is undefined in C++, is an error.
- `changeStateConfigure` and `changeStateReset` (fixed chains of ChangeState), `aggregateStateForPath`, the `GroupBy` functions, gRPC and command line front ends, logging, configuration files.
