# Flownexus: firmware updates, delivery and ingestion, verified

A Dafny model of the parts of flownexus where several rows, tasks and requests interact, with
proofs about every input, every reachable state and every run. `dafny verify dfyconfig.toml`
checks the whole project.

The source is named by path and line below. The model does what the code does; where the code and
its own documentation differ, the model follows the code, and the difference is a lemma.

## What is modelled

**Firmware updates and operation delivery** (`FotaModel`, `FotaInvariants`, `FotaTraces`,
`FotaEffects`, `FotaHolders`, `FotaRequests`, `FotaClosing`, `FotaPasses`, `FotaServer`, `Versions`).
The database is a `World`: update rows, operation rows, a multiset of queued tasks, and sends in
flight. `send_operation` is two steps, because it saves the row before and after the slow request;
between them a flight holds the local copy that the second save writes back over whatever happened
meanwhile. Duplicate tasks, stale copies, any interleaving and any gateway answer are part of every
run. Each HTTP handler is one atomic step, and `delay` only adds a task. `FotaServer.Server` is the
imperative form, with the loops and the order of assignments of the source, and every method is
proved to be exactly one step of the system, so all results about runs are about these methods.

`FotaPasses` is about the narrower runs in which a pass takes its sends to completion before
anything else happens; its rows below hold there. All other results hold in every run.

Some expectations that suggest themselves are false of the code. Witnesses and conditions are
proved:

- *An update with a failed operation is resolved.* A result report of 0 aborts the open operations
  of an update that stays active (`FotaTraces.ZeroResultStrands`). Over a run the expectation holds
  in every state if and only if no such report came while its update had an open operation
  (`FotaInvariants.FailedResolvedExactly`).
- *CONFIRMED and FAILED are final.* `send_operation` does not look at the status it overwrites, so
  a duplicate task takes a confirmed operation back to SENDING (`FotaTraces.ConfirmedCanBeLeft`).
  Such a row stays unchanged in every continuation of a run if and only if no send task waits for it
  and no send of it is under way (`FotaHolders.FinalForGoodExactly`).
- *An operation is sent at most three times.* Tasks queued several times for one operation can send
  it any number of times. Any bound holds in every continuation of a run if and only if the operation
  is not queued and cannot be queued again, and the requests made and the tasks that wait for it are
  within the bound (`FotaRequests.BoundedExactly`).
- *A finished update has nothing open.* A failure that resolves an update leaves its other operation
  open (`FotaClosing.FailureLeavesSibling`), and a send may start on an operation of a resolved
  update. The expectation holds in all states of a run if and only if none of three kinds of step
  occurs (`FotaClosing.ResolvedClosedExactly`).
- *A name that occurs once is exported under itself.* A name that looks like an indexed column may
  abort the export (`EventExport.ReadableExactly`) or lose its value; the export is lossless whatever
  the values are if and only if no once-only name is bracketed (`EventExport.LosslessExactly`).
- *More than one path or timestamp makes an event.* The code counts nodes and entries instead. The
  bodies for which the two agree are stated exactly (`SendIngest.DocumentedRuleExactly`).

**Registration events, from gateway to database** (`IngestClient`, `Registration`, `Delivery`). The
retrying HTTP client is a step system in which `incrementAndGet`, `decrementAndGet` and each
`sendAsync` are separate steps of concurrent callbacks. The registration serializer folds whatever
arrives. `Delivery` puts both on the two sides of a network that delays, loses and reorders
requests and loses answers.

**Events** (`EventExport`, `SendIngest`, `Text`). The two-pass export of ragged events into one wide
table, with column names that are printed and parsed again, and the rule by which one LwM2M Send
becomes at most one event.

**JSON values** (`ResourceJson`). The gateway's printer and parser of resources, with 64-bit ranges
and Java's narrowing conversions written out.

**Scenarios, sites, dashboard** (`Scenario`, `SiteAccess`, `Permissions`, `Dashboard`). The reconciliation
of a database with a scenario file, the site context of a request with the endpoint sets filtered by
it, and the activity graph.

## Model

| member | source | states |
|---|---|---|
| Versions.NormalizeDecides | server/django/sensordata/serializers/base.py:192-200 | Two versions compare equal exactly when, outer blanks aside, they agree character by character up to case and up to `_` against `-` |
| Versions.NormalizeIdempotent | server/django/sensordata/serializers/base.py:154-156 | A canonical version is its own canonical form, so either side may come normalized already |
| FotaInvariants.StepKeepsInv | server/django/sensordata/serializers/base.py:114-217 | Every step keeps: links exist and stay on one endpoint, no operation is linked twice or in two roles, a resolved update is idle, a linked SENDING operation is held by a task in flight; and a step separates failed operations from resolved updates exactly when it is a 0 result for an update with an open operation |
| FotaInvariants.RunKeepsInv | server/django/sensordata/tasks.py:43-175 | That invariant in every state of every run, duplicate tasks and stale copies included |
| FotaInvariants.FailedResolvedExactly | server/django/sensordata/tasks.py:141-153 | In all states of a run, updates with a failed operation are resolved, if and only if no report of result 0 met an update with an open operation |
| FotaInvariants.ActiveNeverStuck | server/django/sensordata/models.py:330-346 | Without such a report, the package-URI operation of an active update is queued, confirmed, or being sent by a live task; never failed, never abandoned |
| FotaInvariants.OwnerUnique | server/django/sensordata/tasks.py:143-146 | `.first()` in the failure lookup returns the only owner there is |
| FotaInvariants.CleanedSparesSurvivor | server/django/sensordata/serializers/base.py:128-143 | Clearing duplicates leaves the survivor and its operations unchanged and makes it the one active update, so `get()` finds exactly one row |
| FotaInvariants.CloseFailedResolved | server/django/sensordata/serializers/base.py:205-217 | Closing an active update keeps failed operations on resolved updates exactly when the result is not 0 or nothing was open |
| FotaInvariants.ReportKeepsInv | server/django/sensordata/serializers/base.py:114-190 | The invariant across any report, and the exact report that separates failed operations from resolved updates |
| FotaInvariants.CreateKeepsInv | server/django/sensordata/models.py:330-346 | A new update owns a fresh operation on its endpoint; nothing else is linked to it |
| FotaInvariants.BeginKeepsInv | server/django/sensordata/tasks.py:44-70 | Marking a row SENDING, whatever its status, leaves it held by its send, and all other SENDING rows by theirs |
| FotaInvariants.FinishKeepsInv | server/django/sensordata/tasks.py:108-111 | Writing back a stale copy and passing its failure on keeps the invariant and resolves the owner of the failed operation |
| FotaTraces.ReportRow | server/django/sensordata/serializers/base.py:114-190 | A report rewrites exactly the active rows of its endpoint, each to the stated row, and no other |
| FotaTraces.ReportOp | server/django/sensordata/serializers/base.py:205-217 | A report aborts an existing operation or leaves it alone, and aborts only those of its own endpoint |
| FotaTraces.FinishRows | server/django/sensordata/tasks.py:87-111 | A finished send rewrites its own operation row and at most one active update, of the same endpoint, to failed and idle |
| FotaTraces.ResolvedFrozen | server/django/sensordata/serializers/base.py:117-119 | Once an update has a result it is idle, and no later step of any run changes any of its columns |
| FotaTraces.StateTracksReports | server/django/sensordata/serializers/base.py:173-187 | An active update is not idle exactly when the last report that set its state since it was created told a state other than idle; a result report, of which only 0 leaves the update active, sets the state to idle |
| FotaTraces.SuccessExactly | server/django/sensordata/serializers/base.py:145-188 | An update is SUCCESS if and only if, while it was the surviving active update, its device reported result 1, or reported the expected version when the last state or result report had told a state other than idle |
| FotaTraces.StepIsLocal | server/django/sensordata/serializers/base.py:117-119 | A step leaves every update and operation of every other endpoint unchanged |
| FotaTraces.EndpointsIsolated | server/django/sensordata/tasks.py:156-175 | Over any stretch of a run without steps of an endpoint, its updates and operations stay as they are |
| FotaTraces.ReportLeavesOne | server/django/sensordata/serializers/base.py:128-143 | For any number of active updates, a report leaves at most the latest active; all others end failed and idle with no operation queued or being sent |
| FotaTraces.ResultReportCloses | server/django/sensordata/serializers/base.py:184-190 | A result report leaves the survivor idle with that result and nothing open |
| FotaTraces.FinalReportOrderIrrelevant | devtools/zephyr/client/src/fota.c:63-71 | The final state 0 and result r give the same database in either order; with the result first, the state node ends in a validation error |
| FotaTraces.FinalStatusLeftExactly | server/django/sensordata/tasks.py:67-108 | The exact steps that take an operation out of CONFIRMED or FAILED: a send that starts on it; or one under way that ends, for a confirmed row, with anything but 2xx, and for a failed row, with 2xx or with a failure to be retried |
| FotaTraces.ZeroResultStrands | server/django/sensordata/serializers/base.py:184-190 | A run after which an active update has a failed package-URI operation |
| FotaTraces.ConfirmedCanBeLeft | server/django/sensordata/tasks.py:67-70 | A run in which a duplicate task takes a confirmed operation back to SENDING |
| FotaEffects.CreateEffect | server/django/sensordata/models.py:330-346 | A new update has the endpoint, version and creation time it is given, state 0, result 0 and a fresh queued package-URI operation without attempts; a pass is asked for exactly if the caller dispatches; nothing else changes |
| FotaEffects.PostEffect | server/django/sensordata/views.py:214-248 | An operation posted through the API is fresh, has the status it names and no attempts, and belongs to no update |
| FotaEffects.LatestExactly | server/django/sensordata/serializers/base.py:135-135 | The survivor is an active update of the device than which none of the others was created later |
| FotaEffects.DownloadedAsksForPass | server/django/sensordata/serializers/base.py:176-182 | A report of state 2 asks for one pass, and links a fresh queued execution to the survivor, whatever state it was in before |
| FotaEffects.OtherReportsStartNothing | server/django/sensordata/serializers/base.py:114-190 | Every other report, and every report without an active update, adds no task and no operation |
| FotaEffects.SurvivorRow | server/django/sensordata/serializers/base.py:145-190 | The surviving row after each kind of report, in literal states and results: 1 or 8 by the version once started, the reported result with state 0, the reported state, or no change |
| FotaEffects.OtherRows | server/django/sensordata/serializers/base.py:136-140 | Every other active update of the device gets state 0 and result 8; all other rows stay |
| FotaEffects.OperationAfterReport | server/django/sensordata/serializers/base.py:205-217 | A linked operation that is queued or being sent fails if its update is an active duplicate or a survivor that the report concludes; every other linked operation stays |
| FotaEffects.PassesAreAskedFor | server/django/sensordata/serializers/base.py:176-182 | In every run, the passes of an endpoint that began and those that wait are together the dispatching creations, the registrations, and the reports of state 2 that met an active update |
| FotaEffects.BeginEffect | server/django/sensordata/tasks.py:67-70 | A send that starts writes SENDING over any status, keeps the counter, and holds that copy |
| FotaEffects.FinishEffect | server/django/sensordata/tasks.py:87-108 | The row written back for every answer, by status code, code and counted attempts; no other operation changes |
| FotaEffects.FinishFailsOwner | server/django/sensordata/tasks.py:110-111 | If that is FAILED, the active update that links the operation gets state 0 and result 8, and no other update changes |
| FotaHolders.FinalForGoodExactly | server/django/sensordata/tasks.py:43-108 | A CONFIRMED or FAILED row never changes again, in any continuation of any run, if and only if no send task waits for it and no send of it is under way |
| FotaHolders.SettledStays | server/django/sensordata/tasks.py:156-175 | A final row that nothing holds stays so, and stays as it is, along every run: no report, pass or other send touches it |
| FotaHolders.TakenCanChange | server/django/sensordata/tasks.py:67-108 | While a task holds a final row, a next step exists that takes it to another status |
| FotaHolders.AtMostThreeSends | server/django/sensordata/tasks.py:99-106 | A sufficient condition for the bound of three: an operation that never has two holders, waiting tasks and sends under way together, is sent at most three times, with reports and aborts falling anywhere between the start and the end of a send |
| FotaRequests.RequestsArePasses | server/django/sensordata/tasks.py:164-175 | In every run, the requests made for an operation and the tasks that still wait to make one are together exactly the passes that found it queued |
| FotaRequests.OnlyWaitingSends | server/django/sensordata/tasks.py:99-106 | An operation that is not queued and cannot be queued again stays so, and is sent only by the tasks that already wait for it |
| FotaRequests.RequestsUnbounded | server/django/sensordata/tasks.py:164-175 | From every state in which an operation is queued, or a failure of a send with fewer than two counted attempts can queue it again, a continuation sends it any number of times more |
| FotaRequests.BoundedExactly | server/django/sensordata/tasks.py:99-106 | For any bound, three included: an operation stays within it in every continuation of any run, if and only if it is not queued and cannot be queued again, and the requests made and the tasks waiting for it are together within the bound |
| FotaRequests.NewOperationUnbounded | server/django/sensordata/tasks.py:164-175 | For every number there is a run that sends one operation exactly so often |
| FotaClosing.ReportKeepsClosed | server/django/sensordata/serializers/base.py:202-217 | No report leaves a resolved update with an operation that waits or is being sent |
| FotaClosing.StepKeepsClosed | server/django/sensordata/serializers/base.py:202-217 | A step leaves every resolved update with nothing open exactly when it is none of three: a send that starts on an operation of a resolved update, a send of one that ends and queues it again, a failure of one operation of an active update whose other is open |
| FotaClosing.ResolvedClosedExactly | server/django/sensordata/tasks.py:141-153 | Over a whole run, resolved updates have nothing open in every state, if and only if no step of the run was one of the three |
| FotaClosing.FailureLeavesSibling | server/django/sensordata/tasks.py:141-153 | A run in which the request to execute is answered with 400, the update is failed, and its package URI still waits to be sent |
| FotaPasses.PassIsSteps | server/django/sensordata/tasks.py:156-175 | A pass with its sends is a stretch of an ordinary run: one pass step, then a begin and a finish for each queued operation |
| FotaPasses.PassOnOps | server/django/sensordata/tasks.py:164-175 | A pass gives each queued operation of its endpoint exactly its own answer, once, and touches no other row |
| FotaPasses.RunKeepsSeqInv | server/django/sensordata/tasks.py:87-108 | Between passes taken to completion no task sends, counters bound the requests made, and what is queued or confirmed has attempts left |
| FotaPasses.AtMostThreeRequests | server/django/sensordata/tasks.py:26-26 | With passes taken to completion, no operation costs more than three gateway requests over the whole run |
| FotaPasses.FinalStatusStays | server/django/sensordata/tasks.py:164-166 | With passes taken to completion, a CONFIRMED or FAILED row never changes again |
| FotaPasses.ConfirmedExactly | server/django/sensordata/tasks.py:87-90 | With passes taken to completion: an operation is CONFIRMED if and only if the gateway once answered its request with 2xx, or an API call created it so |
| FotaPasses.RetriedExactly | server/django/sensordata/tasks.py:87-106 | With passes taken to completion: each request adds one to those made for its operation over the whole run; after it the operation is confirmed exactly for 2xx, queued again exactly for a failure that is neither a device error nor a 400 and not the third request, and failed otherwise |
| FotaPasses.PassPaysDebt | server/django/sensordata/tasks.py:99-106 | With passes taken to completion: a pass that finds anything queued strictly lowers the sum of attempts left over the queued operations of the endpoint, which is never negative |
| FotaPasses.QueuedCountsPasses | server/django/sensordata/tasks.py:99-106 | With passes taken to completion: the counter of an operation that is still queued has counted every pass over its endpoint |
| FotaPasses.ThreePassesSettle | server/django/sensordata/tasks.py:103-106 | With passes taken to completion: three passes over an endpoint leave none of the operations it had before them queued |
| FotaPasses.UriDeliveredOrResolved | server/django/sensordata/tasks.py:141-175 | With passes taken to completion: three passes after any moment, every update of that moment is resolved or its package URI is confirmed (no stranding 0 result given) |
| FotaServer.Server.CreateUpdate | server/django/sensordata/models.py:330-346 | Saving a new update, from the page or the API, is the creation step |
| FotaServer.Server.AbortPendingFotaComms | server/django/sensordata/serializers/base.py:205-217 | Handling the two links one after the other aborts exactly the open operations of the update |
| FotaServer.Server.FailStale | server/django/sensordata/serializers/base.py:136-140 | The loop over duplicates ends, in any order of rows, where failing all of them at once does |
| FotaServer.Server.KeepLatest | server/django/sensordata/serializers/base.py:121-143 | It keeps an active update of greatest creation time and afterwards exactly that one is active |
| FotaServer.Server.Conclude | server/django/sensordata/serializers/base.py:168-170 | Result, idle state, aborted operations and the saved row together close the update |
| FotaServer.Server.ApplyReport | server/django/sensordata/serializers/base.py:145-190 | The verdict on a version, a state or a result is the one of the step system |
| FotaServer.Server.HandleFota | server/django/sensordata/serializers/base.py:114-190 | The whole handler is one report step, keeps the invariant, and is rejected exactly when the device has no update with result 0 and the report is not a version; else the kept update is active and none of the active ones was created later |
| FotaServer.Server.ProcessPendingOperations | server/django/sensordata/tasks.py:156-175 | The pass adds one send task for each operation queued when it starts |
| FotaServer.Server.BeginSend | server/django/sensordata/tasks.py:43-70 | Reading the row and the first save are the begin step; a missing row only uses up its send task |
| FotaServer.Server.PropagateFailure | server/django/sensordata/tasks.py:141-153 | The owner of a failed operation is failed and idle afterwards if it was active |
| FotaServer.Server.FinishSend | server/django/sensordata/tasks.py:87-111 | The classification of the answer, the second save and the propagation are the finish step |
| IngestClient.StepKeepsInv | server/leshan/src/main/java/lwm2m/IngestClient.java:80-109 | Every atomic step of any callback keeps the counter equal to admitted timers plus refusals not yet undone, at most 10000 timers, and each post's attempts and total delay |
| IngestClient.RefusedExactlyWhenFull | server/leshan/src/main/java/lwm2m/IngestClient.java:97-101 | A retry is refused exactly when timers and refusals under way are 10000 or more |
| IngestClient.RunKeepsInv | server/leshan/src/main/java/lwm2m/IngestClient.java:97-107 | The same in every state of every interleaving |
| IngestClient.SettledCounterIsZero | server/leshan/src/main/java/lwm2m/IngestClient.java:97-105 | When every post has its fate, the counter is back at zero |
| IngestClient.AttemptsAndBackoff | server/leshan/src/main/java/lwm2m/IngestClient.java:36-38 | Between one and six sends for each post, six when it is dropped for its attempts, and 62 seconds of timers before the sixth |
| IngestClient.StepLowersRank | server/leshan/src/main/java/lwm2m/IngestClient.java:80-109 | Each step of a post brings it nearer to its fate, no other step touches it, and a fate is final |
| IngestClient.PostsEnd | server/leshan/src/main/java/lwm2m/IngestClient.java:80-109 | No run gives a post more than 23 steps, and a post without a fate always has a step to take: each ends in exactly one of accepted, rejected, dropped |
| IngestClient.CompleteExactly | server/leshan/src/main/java/lwm2m/IngestClient.java:83-96 | A completed request is accepted below 300, rejected from 300 to 499, and for errors and answers from 500 retried, or dropped at the sixth send |
| IngestClient.DelayAfterEachSend | server/leshan/src/main/java/lwm2m/IngestClient.java:102-107 | The timers after the five failed sends take 2, 4, 8, 16 and 32 seconds |
| IngestClient.FateExactly | server/leshan/src/main/java/lwm2m/IngestClient.java:80-109 | A post has a fate exactly when a step of its own gave it that fate: an answer below 300, one from 300 to 499, an error or an answer from 500 at the sixth send, or a refusal for the limit |
| IngestClient.OnlyFailuresIsSixSends | server/leshan/src/main/java/lwm2m/IngestClient.java:91-101 | A finished post that got nothing but errors and answers from 500 was sent six times over 62 seconds of timers, or was refused for the limit |
| IngestClient.Gateway.PostEvent | server/leshan/src/main/java/lwm2m/IngestClient.java:62-78 | A post starts with its first send |
| IngestClient.Gateway.WhenComplete | server/leshan/src/main/java/lwm2m/IngestClient.java:82-96 | The callback accepts below 300, rejects below 500, drops the sixth attempt, and otherwise goes on to count a retry |
| IngestClient.Gateway.Admit | server/leshan/src/main/java/lwm2m/IngestClient.java:97-104 | Increment and test are one step, which schedules or refuses |
| IngestClient.Gateway.Refuse | server/leshan/src/main/java/lwm2m/IngestClient.java:98-100 | A refusal undoes its increment in a step of its own |
| IngestClient.Gateway.TimerFires | server/leshan/src/main/java/lwm2m/IngestClient.java:104-105 | A timer gives its place back before it sends, after the delay of its attempt |
| IngestClient.Gateway.SendAgain | server/leshan/src/main/java/lwm2m/IngestClient.java:106-107 | The next send has the next attempt number |
| Registration.LatestIsMaximum | server/django/sensordata/serializers/registration_serializer.py:30-31 | The aggregate is the greatest stored time of the endpoint, or nothing exactly when it has no events |
| Registration.NewestDecides | server/django/sensordata/serializers/registration_serializer.py:40-48 | For any sequence of deliveries, `registered` is what the newest event asks for, the last delivered one among equal times |
| Registration.TasksStartExactly | server/django/sensordata/serializers/registration_serializer.py:40-51 | A pass is started exactly by events that are neither late nor an end, a device read only by a registration among them, always for a device left registered; so a device that comes online gets its pending operations |
| Registration.OrderFreeExactly | server/django/sensordata/serializers/registration_serializer.py:40-48 | The final state is the same for every order and duplication of a set of events if and only if all newest events ask for the same state |
| Registration.DistinctTimesAreOrderFree | server/django/sensordata/serializers/registration_serializer.py:29-48 | With distinct millisecond times, order and duplication never matter |
| Registration.ForwardExactly | server/leshan/src/main/java/lwm2m/IngestForwarder.java:49-73 | What each callback posts: a registration with its date, an update with the time of the update, an end with the present time unless the registration was replaced |
| Registration.UpdateRegisters | server/leshan/src/main/java/lwm2m/IngestForwarder.java:57-61 | An update newer than all events delivered before leaves its device registered |
| Registration.RebootEndsRegistered | server/leshan/src/main/java/lwm2m/IngestForwarder.java:63-73 | A reboot ends registered because the replaced registration is not posted; posting it would end unregistered in every order |
| Registration.RegistrationEvents.Post | server/django/sensordata/serializers/registration_serializer.py:26-52 | One request applies one event, and the state left is always the one of the whole stored history |
| Delivery.MoveKeepsInv | server/leshan/src/main/java/lwm2m/IngestClient.java:80-109 | Whatever the network does: what is stored was posted, and what was accepted is stored |
| Delivery.RunKeepsInv | server/leshan/src/main/java/lwm2m/IngestClient.java:26-31 | The same in every reachable state of client, network and database |
| Delivery.NewestAppliedDecides | server/django/sensordata/serializers/registration_serializer.py:40-52 | In every reachable state an endpoint's registration is that of the newest event applied for it |
| Delivery.NewestPostedDecides | server/leshan/src/main/java/lwm2m/IngestForwarder.java:49-73 | Once the newest event posted for an endpoint is accepted, the endpoint has the state it asks for, whatever late retries, duplicates and drops follow |
| Delivery.ClientRun | server/leshan/src/main/java/lwm2m/IngestClient.java:62-109 | The client inside every run of client, network and database makes a run of the client on its own, with exactly its steps, so what holds of all client runs holds there |
| Delivery.EventsComeToRest | server/leshan/src/main/java/lwm2m/IngestClient.java:80-109 | Every event posted is sent one to six times and takes at most 23 steps, can always go on until it has its fate, and once all have theirs no retry is counted, whatever network and database do |
| Delivery.StoredAtMostSixTimes | server/leshan/src/main/java/lwm2m/IngestClient.java:92-96 | However answers are lost and requests delayed, no posted event enters the history more than six times |
| EventExport.AddedGroups | server/django/frontend/views.py:903-909 | One more resource keeps the dictionary the grouping of all resources so far |
| EventExport.Group | server/django/frontend/views.py:894-909 | One occurrence of a name gives its value, two or more the list of its values in order, names in order of first occurrence |
| EventExport.IndexedColumnDecodes | server/django/frontend/views.py:929-932 | Splitting an indexed column at its last bracket and reading the number gives back name and index, whatever the name holds |
| EventExport.ColumnsInjective | server/django/frontend/views.py:911-916 | Different keys have different columns, as long as plain names are not bracketed |
| EventExport.CellIsExpected | server/django/frontend/views.py:927-941 | The second pass reads each column back to the grouped value of its key, or a blank |
| EventExport.CollectColumns | server/django/frontend/views.py:889-918 | The columns are those some event uses, each once, and those of earlier events before those that only later ones use |
| EventExport.BuildRow | server/django/frontend/views.py:924-942 | A row has the three fixed cells and one for each column; it fails exactly when some column cannot be read |
| EventExport.WriteRows | server/django/frontend/views.py:924-942 | One full row for each event in order, or an unreadable column that exists |
| EventExport.TableIsLossless | server/django/frontend/views.py:885-942 | A table filled like that has a column for each key that occurs and no other, no column twice, and under every key exactly what the event shows or a blank |
| EventExport.Export | server/django/frontend/views.py:885-942 | The export aborts exactly when some column cannot be read in some event, and else returns the table of the two passes; if no once-only name is bracketed it goes through and is lossless |
| EventExport.ExportIsLossless | server/django/frontend/views.py:889-942 | Without bracketed once-only names, every table the two passes can make is lossless |
| EventExport.ReadableExactly | server/django/frontend/views.py:928-932 | The export goes through if and only if the brackets of every bracketed once-only name hold a whole number that does not reach back beyond any event's list under the base name |
| EventExport.ElsewhereIsLost | server/django/frontend/views.py:927-941 | If the second pass reads something else under a bracketed once-only name than the event shows, no table of the export is lossless |
| EventExport.LosslessExactly | server/django/frontend/views.py:885-942 | For given resource names and data types, the export goes through and is lossless whatever values of these types the events hold, if and only if no name that occurs once in some event is bracketed |
| EventExport.ScalarExportedExactly | server/django/frontend/views.py:928-941 | A name is exported under itself wherever it occurs once, in all exports whose other once-only names are not bracketed, if and only if it is not bracketed itself |
| EventExport.GroupedResource | server/django/frontend/views.py:895-909 | The grouping resource by resource: the only one of its name is kept alone, and each of several has its place in the list, with the stored value, or the size text of an opaque one |
| EventExport.OnlyResourceExported | server/django/frontend/views.py:894-941 | In every lossless table, the only resource of a name in its event is found under that name with its stored value, or with its size, or N/A, if it is opaque |
| EventExport.RepeatedResourceExported | server/django/frontend/views.py:911-941 | Each of several resources of a name is found under the name and its place among them, in the order of the event, with its own value |
| EventExport.AbsentIsBlank | server/django/frontend/views.py:938-941 | Under an unbracketed header, an event without exactly one resource of that name has a blank |
| EventExport.AbsentIndexIsBlank | server/django/frontend/views.py:933-937 | Under an indexed header, an event with at most one resource of the name, or too few, has a blank |
| SendIngest.TimestampedResources.HandleResource | server/django/sensordata/serializers/base.py:57-112 | Skip, type errors, stored row, link to the current event, and a firmware error after the row is stored |
| SendIngest.TimestampedResources.CreateGroup | server/django/sensordata/serializers/timestamped_resource_serializer.py:42-55 | The innermost loop ingests the nodes of one timestamp in order and stops at the first error |
| SendIngest.TimestampedResources.CreateItem | server/django/sensordata/serializers/timestamped_resource_serializer.py:41-55 | The loop over the timestamps of one entry does the same for all of them |
| SendIngest.TimestampedResources.Create | server/django/sensordata/serializers/timestamped_resource_serializer.py:33-57 | The rows stored are, in order, the nodes up to the first that ends the request which fit, with their own timestamps; the event, if a node asks in time, is that of the first that asks; an error exactly when some node ends the request |
| SendIngest.HandleExactly | server/django/sensordata/serializers/base.py:57-112 | For one node: whether a row is stored, by data types that share a column, with which endpoint and timestamp; whether it is linked; and whether it ends the request, also by the firmware handler after it is stored |
| SendIngest.RowsExactly | server/django/sensordata/serializers/timestamped_resource_serializer.py:51-55 | The rows of a request are, in order, the nodes up to the first that ends it which fit, each with the endpoint and its own timestamp |
| SendIngest.EventOfFirstAsking | server/django/sensordata/serializers/timestamped_resource_serializer.py:46-49 | The event of a request has its endpoint and the object of the first node that asks; there is none if none asks before the request ends |
| SendIngest.SlotAt | server/django/sensordata/serializers/timestamped_resource_serializer.py:40-55 | Nodes are handled in the order of the body, each with the timestamp key of its own group and the test for an event made on that group |
| SendIngest.WideSlotsShareOneEvent | server/django/sensordata/serializers/timestamped_resource_serializer.py:46-49 | If the first node asks for an event, one is created and exactly the resources stored from the request are linked to it, also after an early error |
| SendIngest.NarrowSlotsMakeNoEvent | server/django/sensordata/serializers/timestamped_resource_serializer.py:46-49 | If no node asks, no event and no link appear |
| SendIngest.LinkedTogetherExactly | server/django/sensordata/serializers/timestamped_resource_serializer.py:40-55 | For any body, the resources of a request are linked all together or not at all if and only if nothing was stored before the first node that asks for an event, or it is never reached |
| SendIngest.DataReceived | server/leshan/src/main/java/lwm2m/IngestForwarder.java:76-97 | The gateway sends one entry with one key for each timestamp, with the nodes of that timestamp |
| SendIngest.SendMakesOneEvent | doc/source/application_guide/events.rst:20-24 | A Send with at least one node makes exactly one event if it has more than one path or timestamp and none otherwise, and exactly the resources stored from it are linked |
| SendIngest.LinkedTogetherUnlessStored | server/django/sensordata/serializers/timestamped_resource_serializer.py:40-55 | Without an early error, the resources of a request are linked all together or not at all if and only if no node asks for an event or every node before the first that asks is one the handler skips |
| SendIngest.EventIffAsked | server/django/sensordata/serializers/timestamped_resource_serializer.py:46-49 | Exactly one event is created if a node that asks is reached before any error, and none otherwise |
| SendIngest.EventExactly | server/django/sensordata/serializers/timestamped_resource_serializer.py:40-49 | Any body ingested without an error makes exactly one event if some timestamp holds more than one node, or there are several entries and some node, and none otherwise |
| SendIngest.OneEntryAsks | server/django/sensordata/serializers/timestamped_resource_serializer.py:46-46 | A single entry gets its event exactly when one of its timestamps holds more than one node |
| SendIngest.DocumentedRuleExactly | doc/source/application_guide/events.rst:20-24 | For any body ingested without an error, the code makes an event exactly as documented if and only if a single entry has one timestamp or one with several nodes, several entries do not repeat one timestamp and one path, and a body without nodes has at most one timestamp |
| SendIngest.OtherShapesMayLoseTheEvent | server/django/sensordata/serializers/timestamped_resource_serializer.py:46-46 | An instance: two timestamps in one entry, one node each, which the gateway never sends, get no event |
| ResourceJson.ParseUndoesPrint | server/leshan/src/main/java/lwm2m/json/SingleResourceParser.java:26-77 | Parsing undoes printing exactly for the writable types: always for text, both integers over all 64 bits, booleans, all byte strings and times; for FLOAT where the text form of the double is faithful |
| ResourceJson.ParsedIsWellTyped | server/leshan/src/main/java/lwm2m/json/SingleResourceParser.java:33-77 | Whatever is accepted has a writable type, a value of that type within range, and a 32-bit id |
| ResourceJson.AcceptedBodiesHaveCanonicalForm | server/leshan/src/main/java/lwm2m/json/JacksonLwM2mNodeSerializer.java:91-126 | Printing what was read from any accepted body and reading it again changes nothing |
| ResourceJson.BooleanAcceptsExactly | server/leshan/src/main/java/lwm2m/json/SingleResourceParser.java:59-67 | A whole number is a BOOLEAN exactly when its low 32 bits are 0 or 1, so more than the 0 and 1 of the error message |
| ResourceJson.IntegerFromNumber | server/leshan/src/main/java/lwm2m/json/SingleResourceParser.java:56-56 | A JSON whole number as INTEGER is itself within 64 bits, and else the number within 64 bits that differs by a multiple of 2^64 |
| ResourceJson.IntegerFromText | server/leshan/src/main/java/lwm2m/json/SingleResourceParser.java:56-56 | Decimal text as INTEGER is its number within 64 bits, and refused beyond |
| ResourceJson.SpellingsAgree | server/leshan/src/main/java/lwm2m/json/SingleResourceParser.java:56-56 | Within 64 bits both spellings of an INTEGER give the same resource |
| ResourceJson.UnsignedFromEither | server/leshan/src/main/java/lwm2m/json/SingleResourceParser.java:57-57 | An UNSIGNED_INTEGER in either spelling is itself from 0 to 2^64 - 1 and refused outside |
| ResourceJson.NoNumberThere | server/leshan/src/main/java/lwm2m/json/SingleResourceParser.java:56-57 | Truth values, null, arrays and objects are no whole numbers |
| ResourceJson.FloatReads | server/leshan/src/main/java/lwm2m/json/SingleResourceParser.java:58-58 | A FLOAT from a JSON number is that number, from text what Java reads there, and else refused |
| ResourceJson.BooleanReads | server/leshan/src/main/java/lwm2m/json/SingleResourceParser.java:59-67 | A whole number as BOOLEAN is true for low 32 bits 1, false for 0, and refused else |
| ResourceJson.TimeReads | server/leshan/src/main/java/lwm2m/json/SingleResourceParser.java:69-74 | A TIME is a whole number of milliseconds, narrowed to 64 bits |
| ResourceJson.OpaqueReads | server/leshan/src/main/java/lwm2m/json/SingleResourceParser.java:68-68 | Text is read as OPAQUE exactly if it is an even number of hexadecimal digits, in either case |
| ResourceJson.OpaqueFromNumber | server/leshan/src/main/java/lwm2m/json/SingleResourceParser.java:68-68 | A whole number as OPAQUE is taken by its decimal digits |
| ResourceJson.StringReads | server/leshan/src/main/java/lwm2m/json/SingleResourceParser.java:50-55 | A STRING is a JSON string, and no number and no boolean |
| ResourceJson.TextRefused | server/leshan/src/main/java/lwm2m/json/SingleResourceParser.java:59-74 | Text is refused as TIME and as BOOLEAN |
| ResourceJson.UnwritableRefused | server/leshan/src/main/java/lwm2m/json/SingleResourceParser.java:75-75 | NONE, OBJLNK and CORELINK are refused whatever the value |
| ResourceJson.MalformedRefused | server/leshan/src/main/java/lwm2m/json/SingleResourceParser.java:27-38 | No object, a missing field, or another kind is refused |
| ResourceJson.IdReads | server/leshan/src/main/java/lwm2m/json/SingleResourceParser.java:36-45 | An id is a whole number within 32 bits, or a fraction in that range cut off towards zero; all else is refused |
| ResourceJson.PrintedForm | server/leshan/src/main/java/lwm2m/json/JacksonLwM2mNodeSerializer.java:91-126 | A resource is printed as exactly id, kind, type name and value, with integers and doubles as text, times and booleans as such |
| ResourceJson.PrintInstances | server/leshan/src/main/java/lwm2m/json/JacksonLwM2mNodeSerializer.java:83-90 | Each instance gets its own key, with its value, and none is lost |
| Text.DecimalReads | server/django/frontend/views.py:914-914 | Decimal text reads back as the number it was printed from |
| Text.PyIntReads | server/django/frontend/views.py:932-932 | Python's `int` accepts that text and returns the number |
| Text.SignedReads | server/leshan/src/main/java/lwm2m/json/SingleResourceParser.java:56-57 | Java's integer grammar reads back every printed whole number |
| ResourceJson.HexReads | server/leshan/src/main/java/lwm2m/json/SingleResourceParser.java:68-68 | Decoding hex text gives back every byte string |
| ResourceJson.HexAt | server/leshan/src/main/java/lwm2m/json/JacksonLwM2mNodeSerializer.java:110-111 | Each byte is printed as two small hexadecimal digits, the high one first |
| ResourceJson.HexTextReads | server/leshan/src/main/java/lwm2m/json/SingleResourceParser.java:68-68 | Text decodes exactly if it has an even number of hexadecimal digits of either case |
| Text.StripTakesBlanks | server/django/sensordata/serializers/base.py:200-200 | What stripping takes away before and after is blank |
| Text.StripIsPart | server/django/sensordata/serializers/base.py:200-200 | What stripping keeps is one part of the text, unchanged |
| Text.UnderscoresRead | server/django/frontend/views.py:932-932 | Python's `int` passes over single underscores between digits only |
| SiteAccess.NotAfterExactly | server/django/core/middleware.py:135-143 | Names are ordered by the first character in which they differ, and a name before those it begins |
| Scenario.CreatedOrUpdatedAlike | server/django/sensordata/models.py:85-119 | A membership comes out the same whether its row is created, through the role defaults, or updated |
| Scenario.WantedExactly | server/django/sensordata/management/commands/load_scenario.py:131-150 | What a membership line grants: each permission as spelled out; else overview and data analysis for all, view and manage firmware and operations for ADMIN, manage devices for none; USER where no role is given |
| Scenario.RoleDefaultsExactly | server/django/sensordata/models.py:85-119 | The same defaults by role for a row created with only some permissions given |
| Scenario.MembershipsReplaced | server/django/sensordata/management/commands/load_scenario.py:120-156 | One user entry replaces all memberships of its user and touches nobody else's |
| Scenario.UsersLoaded | server/django/sensordata/management/commands/load_scenario.py:101-156 | After all entries, each user and membership is what the user's last entry says, or as before for users the file does not name |
| Scenario.MembershipsExactlyAsConfigured | server/django/sensordata/management/commands/load_scenario.py:124-156 | After a load, a named user has exactly the memberships of the last entry with the permissions of its last line for each site, none for a superuser, whatever was there before |
| Scenario.SitesExactly | server/django/sensordata/management/commands/load_scenario.py:83-99 | A site of the file is active with the description of its last entry; all other sites stay |
| Scenario.DevicesExactly | server/django/sensordata/management/commands/load_scenario.py:158-216 | A device is on the site of the last line that names it under a known site; else it stays, or is created without a site exactly if its number is counted and not mentioned |
| Scenario.OtherDevices | server/django/sensordata/management/commands/load_scenario.py:171-173 | Other devices stay, and all do if none are counted |
| Scenario.ValidExactly | server/django/sensordata/management/commands/load_scenario.py:67-106 | The files that load, spelled out: sites and users present, no empty name or password, no membership in a site the file does not define |
| Scenario.DevicesTwice | server/django/sensordata/management/commands/load_scenario.py:158-216 | Placing and creating devices a second time changes nothing |
| Scenario.LoadingTwiceIsLoadingOnce | server/django/sensordata/management/commands/load_scenario.py:47-52 | Loading a scenario twice leaves the database as loading it once does |
| Scenario.Command.ApplySites | server/django/sensordata/management/commands/load_scenario.py:83-99 | The loop loads all sites, or fails exactly when one has no name |
| Scenario.Command.ApplyMemberships | server/django/sensordata/management/commands/load_scenario.py:120-156 | The inner loop fails exactly when a non-superuser names an unknown site |
| Scenario.Command.ApplyUsers | server/django/sensordata/management/commands/load_scenario.py:101-156 | The loop loads all users, or fails exactly when one entry is not valid |
| Scenario.Command.ApplyDevices | server/django/sensordata/management/commands/load_scenario.py:158-216 | The two loops place the devices of known sites and create the placeholders |
| Scenario.Command.Handle | server/django/sensordata/management/commands/load_scenario.py:37-52 | The command succeeds exactly for valid files; any other leaves the database unchanged |
| SiteAccess.NothingBeyondMemberships | server/django/core/permissions.py:50-82 | Whatever the session holds, a non-superuser sees only endpoints of active sites with a membership that grants the permission |
| SiteAccess.VisibleExactly | server/django/core/permissions.py:50-82 | Which endpoints a request shows, for every user, context and permission, superusers and unassigned endpoints included |
| SiteAccess.PermissionExactly | server/django/core/permissions.py:15-38 | When a permission holds: for superusers; with all sites chosen exactly when some active membership grants it; with one site exactly when that one does |
| SiteAccess.ContextSite | server/django/core/middleware.py:75-133 | The site of a request is active and, for ordinary users, one of their memberships; a choice that may be used is used |
| SiteAccess.SeeingImpliesPermission | server/django/core/permissions.py:15-38 | An endpoint in sight implies the permission in that context |
| SiteAccess.AllIsDisjointUnion | server/django/core/permissions.py:67-82 | The "all" view is the disjoint union of the single-site views over the active memberships |
| SiteAccess.Request.UseDefaultSite | server/django/core/middleware.py:135-156 | The default is the active site of least name for a superuser and the membership joined last for others, with its key and session entry, or nothing |
| SiteAccess.Request.SetContext | server/django/core/middleware.py:75-133 | The context is the one the session's choice stands for; the session names the site in use, so the next request gets an equal context |
| Dashboard.MinuteFields | server/django/frontend/views.py:236-238 | Rounding the minute field by itself rounds the whole time down to five minutes |
| Dashboard.NowInLastStep | server/django/frontend/views.py:230-248 | The current time lies in the last step, in every view |
| Dashboard.StepsTile | server/django/frontend/views.py:253-267 | Every moment of the window lies in exactly one step |
| Dashboard.CountExactly | server/django/frontend/views.py:259-263 | A count is the number of resources within its bounds |
| Dashboard.WindowExactly | server/django/frontend/views.py:230-248 | Ten days from midnight, 48 full hours, or 48 steps of five minutes, aligned to these |
| Dashboard.Graph | server/django/frontend/views.py:250-267 | Each bar is the count of its step, the last step holds the current time, and the bars together count every resource of the window once |

## Left out

- Interleavings inside one HTTP handler: handlers are atomic here. The source has no transaction around them.
- Lost workers: a send that started finishes at some time. A task that dies between its two saves leaves the row SENDING.
- The write-back of `send_operation` and the failure it passes on are one step.
- Eager execution of tasks inside a handler, `FirmwareUpdate.clean`, and edits or deletions through the admin pages.
- The Resource rows that reports and operations store, the resource types, `last_attempt`, and endpoints that do not exist.
- FotaServer.Server.KeepLatest: does not say which of several latest updates with equal creation time is kept, because the database does not either.
- The condition under which a registration event starts a pass is in `Registration`; in the firmware protocol a pass may be asked for at any time.
- A second DOWNLOADED report replaces the execute link. The model keeps that, and then says no more about the first execution than about any operation without an update.
- FotaHolders.AtMostThreeSends: its condition is sufficient only; the exact one is in `FotaRequests.BoundedExactly`.
- Versions.NormalizeDecides: only ASCII blanks and letters, because Unicode case mapping is not modelled. The same holds for Python's `int` and for type names.
- IngestClient.AttemptsAndBackoff: takes the first delay of 2000 ms; the second constructor, `stop`, bodies that cannot be serialized and the 32-bit width of the counter are not modelled.
- Registration.DistinctTimesAreOrderFree: times are the stored milliseconds; the conversion from a date through floating point is not modelled.
- Delivery.NewestPostedDecides: a request that is answered with an error has applied nothing, and the store starts empty with no other writer of registration events.
- The export's site and time filters, its row limit, the values mode, and the spreadsheet file itself.
- The single and composite serializers, and the parsing of timestamps.
- SendIngest.TimestampedResources.HandleResource: whether the database takes a value and whether the firmware handler refuses it are given with each node, because values and the firmware rows are not part of that module.
- ResourceJson.ParseUndoesPrint: Java's text form of doubles is a parameter, and Jackson is taken to print dates as epoch milliseconds. Nodes other than resources are left out.
- Passwords, keys and join dates of scenarios, and the reading of the YAML file.
- SiteAccess.Request.UseDefaultSite: of several memberships with equal join time any may come first. Names are ordered by code point, as SQLite does. Requests without a user are left out.
- The text of the dashboard's labels and its firmware figures.
- The command servlet of the gateway, the simulator, the end-to-end harness, forms, templates, login and migrations.
