# CANJaguarServer, modelled in Dafny

FRC team 2605's robot code drives its CANJaguar motor controllers through a
server object, `CANJaguarServer`. Callers on any task post commands to a
VxWorks message queue, and one worker task (`RunLoop`) owns the CAN bus:
- it takes the commands off the queue and applies them to its list of
  registered controllers;
- it answers `GetJag` requests on a second queue;
- it periodically re-checks one controller for a brown-out, which would
  have reset the controller's mode.

This project models that server as a sequential state machine and proves
properties of it. The model covers:
- the growable array the device list is built on (`Util/Vector.h`);
- the configuration routines that the server applies to each controller
  (`Util/JaguarUtils.cpp`);
- the per-controller facade `AsynchCANJaguar`.

Modules and files:

| file | module | what it models |
|---|---|---|
| `wrappers.dfy` | `Wrappers` | `Option` and `Result` |
| `ints.dfy` | `Ints` | the fixed-width integer ranges of the source |
| `vectors.dfy` | `Vectors` | `Vector<T>`: buffer plus length, each operation, and `Remove` as written |
| `jaguar_utils.dfy` | `JaguarUtils` | `CANJagConfigInfo`, an abstract driver, `ConfigCANJaguar`, `CheckCANJaguar` |
| `messages.dfy` | `Messages` | the command codes and message structs, as one `Command` datatype |
| `command_queue.dfy` | `CommandQueue` | the bounded command queue with urgent (head) and normal (tail) sends |
| `registry.dfy` | `Registry` | the device list and each `RunLoop` case's effect on it |
| `dispatch.dfy` | `Dispatch` | the `RunLoop` switch, corrected and as written |
| `sweep.dfy` | `Sweep` | the round-robin brown-out sweep |
| `server.dfy` | `CanJagServer` | the server object: `Start`, the send methods, `SendError`, `GetJag`, the worker step, `Stop` |
| `facade.dfy` | `Facade` | `AsynchCANJaguar` |

Modelling choices:
- **Controller driver.** The WPILib `CANJaguar` driver is outside the model.
  It is represented by a record holding the control mode, whether control is
  enabled, the last value set and its sync group. The routines of
  `JaguarUtils.cpp` are modelled as the ordered list of driver calls they
  issue, so both the order of the calls and their net effect can be stated.
  A controller's reading is the last value set on it.
- **Queue.** The command queue is bounded. A normal message joins its tail
  and an urgent message is put at its head, as VxWorks does for
  `MSG_PRI_URGENT`. What happens on a full
  queue depends on the send:
  - `Disable`, `Get` and `UpdateSyncGroup` send urgent and wait forever, so
    on a full queue they are blocked until the worker makes room;
  - the others send normal with a timeout, so on a full queue they fail.

  A NULL queue makes every send fail.
- **Response semaphore.** It is a flag: `Some(true)` while a `GetJag` holds
  it, including while that `GetJag` waits for room in the command queue.
- **Worker.** The worker is `Step`, one loop iteration per call. Whether the
  brown-out interval has elapsed is an input.
- **Defects.** Where the source has a defect, the state machine uses the
  corrected behaviour (`Dispatch.Handle`, `Start`, `GetJagRequest`,
  `Vectors.Remove`). The behaviour as written is modelled beside it, and
  lemmas show exactly where the two differ (see Findings).
- **`SendError`.** The flag is assigned by every send, so a later
  successful send clears an earlier failure (`Issue`,
  `SendErrorReflectsLastSend`).

## Model

| member | source | states |
|---|---|---|
| Vectors.New | Util/Vector.h:20-35 | a new vector is empty; a non-positive size request gives capacity 16, a positive one gives exactly that capacity |
| Vectors.GetLength | Util/Vector.h:115-120 | the length is the number of visible items |
| Vectors.At | Util/Vector.h:45-52 | indexing succeeds exactly when the index is below the length and then yields that item; otherwise it is the out-of-bounds error |
| Vectors.Put | Util/Vector.h:45-52 | writing through the index operator has the same bounds check and changes only that item |
| Vectors.ExpandFor | Util/Vector.h:124-144 | afterwards the capacity is at least the requested length and the items are kept: unchanged if it already fits, doubled if doubling suffices, otherwise request plus old capacity |
| Vectors.Push | Util/Vector.h:64-72 | the items become the old items followed by the pushed one; capacity never shrinks |
| Vectors.Pop | Util/Vector.h:74-80 | on a non-empty vector the old items are the new items followed by the returned element |
| Vectors.Peek | Util/Vector.h:82-87 | on a non-empty vector it returns the last item |
| Vectors.Remove | Util/Vector.h:89-102 | a start at or past the end is a no-op; otherwise the run from start, with its length clipped to the end, is cut out and the rest keeps its order |
| Vectors.IndexOf | Util/Vector.h:104-113 | returns the least index at or after start holding x, and -1 exactly when there is none |
| Vectors.PushThenPop | Util/Vector.h:64-80 | pop after push returns the pushed element and restores the items |
| Vectors.PushThenPeek | Util/Vector.h:64-87 | peek after push sees the pushed element |
| Vectors.PushThenRemoveLast | Util/Vector.h:64-102 | removing the last single item undoes a push |
| Vectors.RemoveOneDeletes | Util/Vector.h:89-102 | removing one element at a valid index deletes exactly that element and keeps the rest in order |
| Vectors.PushGrowth | Util/Vector.h:124-137 | a push keeps or exactly doubles a non-empty buffer |
| Vectors.RemoveAsWritten | Util/Vector.h:89-102 | the written removal with 32-bit wrap of start plus length, loop bound and source index keeps the buffer size |
| Vectors.ShiftDownMovesTail | Util/Vector.h:97-98 | without wrap-around the copy loop moves the tail run down to the start and leaves the rest of the buffer as it was |
| Vectors.RemoveAsWrittenWithoutWrap | Util/Vector.h:92-100 | when start plus length stays below 2^32 the written removal equals the intended one |
| Vectors.RemoveWrapCounterexample | Util/Vector.h:94-100 | on items [10, 20], removing 0xFFFFFFFF items from index 1 yields [10, 10, 10] as written, but [10] as intended |
| JaguarUtils.DefaultConfig | Util/JaguarUtils.cpp:8-17 | the default configuration has voltage mode, coast neutral action, 12 V maximum and safety off, and every other field is the one it started with |
| JaguarUtils.SelectedMode | Util/JaguarUtils.cpp:24-60 | the driver mode chosen is always one the driver knows: the configured mode when known, voltage otherwise |
| JaguarUtils.ConfigCalls | Util/JaguarUtils.cpp:19-67 | configuration first disables control, then changes mode once, and ends with the configured maximum voltage, neutral action and safety setting followed by enabling control; it never enables, disables or changes mode in between and never sets an output; position and speed configurations apply their reference and PID values, speed its encoder codes; a position configuration with reference 0 configures encoder codes and never potentiometer turns, any other reference the reverse; the other modes issue nothing else |
| JaguarUtils.ConfigureJaguar | Util/JaguarUtils.cpp:19-67 | after configuration control is enabled, the mode is the configured one for the five known modes and voltage otherwise, and the set value is kept |
| JaguarUtils.CheckCalls | Util/JaguarUtils.cpp:69-81 | the check issues no call exactly when the modes agree, and the full configuration otherwise |
| JaguarUtils.CheckJaguar | Util/JaguarUtils.cpp:69-81 | the check leaves a driver in the configured mode untouched and afterwards the mode matches any known configured mode |
| JaguarUtils.CheckIdempotent | Util/JaguarUtils.cpp:69-81 | for a known mode a second check finds nothing to do |
| JaguarUtils.UnknownModeAlwaysReconfigures | Util/JaguarUtils.cpp:56-76 | a configuration with an unknown mode never matches, so every check reconfigures again |
| CommandQueue.Create | CANJagServer/CANJaguarServer.cpp:127-128 | a new queue is empty with the requested capacity |
| CommandQueue.Send | CANJagServer/CANJaguarServer.cpp:324-351 | a send fails exactly when the queue is full; an urgent message goes ahead of every queued message, a normal message goes last |
| CommandQueue.Receive | CANJagServer/CANJaguarServer.cpp:553 | a receive fails exactly when the queue is empty, and otherwise hands out the head of the received order |
| CommandQueue.UrgentOvertakesNormal | CANJagServer/CANJaguarServer.cpp:443-444 | an urgent message is the next one received, and the rest of the queue is what was waiting before |
| CommandQueue.OrderWithinClass | CANJagServer/CANJaguarServer.cpp:360-423 | two normal sends are received in sending order after everything waiting; two urgent sends are received newest first, ahead of everything waiting |
| Registry.FirstMatch | CANJagServer/CANJaguarServer.cpp:593-608 | the scan finds nothing exactly when the identifier is absent, and otherwise the least index holding it |
| Registry.FirstMatchIsOnlyMatch | CANJagServer/CANJaguarServer.cpp:695-716 | with distinct identifiers the first match is the only one |
| Registry.ActOnFirst | CANJagServer/CANJaguarServer.cpp:593-608 | only the first matching record's driver receives the calls; a miss changes nothing; identifiers and configurations are kept |
| Registry.ActOnFirstTargetsOnlyId | CANJagServer/CANJaguarServer.cpp:593-608 | with distinct identifiers the device with the identifier gets the calls and all others are untouched |
| Registry.DisableJag | CANJagServer/CANJaguarServer.cpp:587-612 | a miss changes nothing; a hit issues to the first match the output 0 and then disable control, leaving it at value 0 and disabled with its mode kept, and all other records untouched |
| Registry.EnableJag | CANJagServer/CANJaguarServer.cpp:615-639 | a miss changes nothing; a hit enables only the first match |
| Registry.SetJag | CANJagServer/CANJaguarServer.cpp:642-676 | a miss changes nothing; a hit sets only the first match's value and sync group |
| Registry.AddJag | CANJagServer/CANJaguarServer.cpp:679-735 | a present identifier leaves the list unchanged; a new one appends exactly one record with that identifier and configuration whose driver is a new driver put through the full configuration, and appends the identifier to the list's identifiers; distinctness is kept |
| Registry.RemoveJag | CANJagServer/CANJaguarServer.cpp:831-859 | a miss changes nothing; a hit deletes exactly the first match, keeps the others in order, and hands back its driver disabled; afterwards the identifier is gone |
| Registry.DeleteKeepsDistinct | CANJagServer/CANJaguarServer.cpp:837-855 | deleting one record keeps the remaining identifiers distinct and drops the deleted one |
| Registry.ConfigJag | CANJagServer/CANJaguarServer.cpp:738-774 | a hit replaces only that record's configuration and puts its driver through the full configuration, which enables it in the configured mode or in voltage mode for an unknown one; identifiers, order and length are kept |
| Registry.GetReply | CANJagServer/CANJaguarServer.cpp:777-828 | the corrected Get always gives one reply: the first match's reading with the Get code, or the placeholder reply on a miss |
| Registry.GetRepliesAsWritten | CANJagServer/CANJaguarServer.cpp:801-823 | the written scan sends as many Get replies as there are records with the identifier, each naming it, none on a miss, and the first carries the head record's reading when the head matches |
| Registry.GetRepliesAsWrittenOnHit | CANJagServer/CANJaguarServer.cpp:801-823 | with distinct identifiers and a hit, the written scan sends exactly the intended reply |
| Registry.AddJagIsVectorPush | CANJagServer/CANJaguarServer.cpp:722-728 | adding a new device is `Push` of its configured record on the vector holding the list |
| Registry.RemoveJagIsVectorRemove | CANJagServer/CANJaguarServer.cpp:837-845 | removing a device is `Remove(i, 1)` at its first match on the vector holding the list |
| Dispatch.Handle | CANJagServer/CANJaguarServer.cpp:573-877 | every command frees its message once; Disable, Enable, Set, Add, Config and Remove with a payload act as the registry operation of that name; Get, UpdateSyncGroup, Nop, unknown codes and NULL payloads leave the list alone; exactly a Get gets one reply, the first match's reading or the placeholder; exactly UpdateSyncGroup issues its group; only Remove retires a driver, disabled; distinctness is kept |
| Dispatch.DispatchAsWritten | CANJagServer/CANJaguarServer.cpp:573-877 | a NULL Set or Add payload leaves the loop, a NULL Config payload is discarded, and a Get for a nonzero identifier or a Config with a payload has undefined behaviour |
| Dispatch.ConfigWithStaleId | CANJagServer/CANJaguarServer.cpp:758-764 | one possible outcome of the written Config: the device named by the stale identifier is reconfigured, which is the corrected Config only when that identifier is the payload's own |
| Dispatch.AsWrittenAgreesElsewhere | CANJagServer/CANJaguarServer.cpp:573-877 | outside Get, Config, NULL payloads and Remove hits the written switch is the corrected one |
| Dispatch.NullPayloadStopsWorker | CANJagServer/CANJaguarServer.cpp:644-750 | NULL Set and Add payloads stop the worker while a NULL Config payload does not; the correction discards all three |
| Dispatch.RemoveFreesMessageTwice | CANJagServer/CANJaguarServer.cpp:831-859 | a Remove that hits frees its message twice as written and once corrected |
| Dispatch.ConfigMatchesStaleId | CANJagServer/CANJaguarServer.cpp:738-774 | the written Config is undefined; in the outcome where the stale identifier names no device it misses its own device, while the corrected one configures it |
| Dispatch.GetOfDeviceZero | CANJagServer/CANJaguarServer.cpp:777-797 | a Get for device 0 draws the placeholder reply as written and a real reading corrected |
| Dispatch.GetMissSendsNoReply | CANJagServer/CANJaguarServer.cpp:801-828 | a Get for an absent device gets no reply as written and the placeholder corrected |
| Dispatch.SyncGroupIgnoresDevices | CANJagServer/CANJaguarServer.cpp:862-869 | an UpdateSyncGroup issues its group, sends no reply and leaves the list alone, with the same effect whatever devices are registered |
| Dispatch.GetOnlyReads | CANJagServer/CANJaguarServer.cpp:777-828 | a Get leaves the list unchanged and replies with the first match's reading, or the placeholder on a miss |
| Dispatch.DispatchAllKeepsIdsDistinct | CANJagServer/CANJaguarServer.cpp:679-859 | no run of commands registers an identifier twice |
| Dispatch.RemoveThenWriteIsNoop | CANJagServer/CANJaguarServer.cpp:831-859 | after a Remove every further Disable, Enable, Set, Config or Remove for that identifier changes nothing |
| Dispatch.AddEnableSetGet | CANJagServer/CANJaguarServer.cpp:615-828 | Add of a new device 3, Enable and Set to 0.42 make a Get reply carry 0.42 for device 3 |
| Sweep.SweepStep | CANJagServer/CANJaguarServer.cpp:883-902 | a step that is not due changes nothing; a due step resets an out-of-range cursor to 0, checks that device only when the list is non-empty, increments the cursor, keeps identifiers and configurations, and leaves the checked device in its configured known mode |
| Sweep.SweepRunVisits | CANJagServer/CANJaguarServer.cpp:888-902 | due steps keep the list's identifiers and visit the indexes the cursor rule predicts |
| Sweep.VisitsRotate | CANJagServer/CANJaguarServer.cpp:894-900 | the j-th of up to K steps visits the index j places after the starting one, around the list |
| Sweep.VisitsCoverOnce | CANJagServer/CANJaguarServer.cpp:894-900 | K cursor steps on K devices visit every index and none twice |
| Sweep.SweepVisitsEveryDeviceOnce | CANJagServer/CANJaguarServer.cpp:888-902 | K consecutive due sweep steps on a K-device list check every device exactly once, from any cursor |
| CanJagServer.New | CANJagServer/CANJaguarServer.cpp:25-42 | a constructed server is not running, has no devices and the requested brown-out setting |
| CanJagServer.SetBrownOutCheckEnabled | CANJagServer/CANJaguarServer.cpp:86-91 | only the brown-out setting changes |
| CanJagServer.Start | CANJagServer/CANJaguarServer.cpp:124-185 | corrected start reports success exactly when every resource is granted, and then has empty queues, a free semaphore, no send error and cursor 0; on failure the command queue is NULL, a response queue that was created is NULL again, a semaphore that was created is NULL again, a failed first allocation leaves the other handles alone, and nothing else in the server changes |
| CanJagServer.StartAsWritten | CANJagServer/CANJaguarServer.cpp:124-185 | the written start agrees with the corrected one whenever the response queue is granted |
| CanJagServer.StartReportsSuccessWithoutQueues | CANJagServer/CANJaguarServer.cpp:134-183 | when the response queue is refused the written start reports success with both queues NULL; the corrected one reports failure |
| CanJagServer.CommandOfRoundTrip | CANJagServer/CANJaguarServer.cpp:324-530 | each command method's message decodes back to the call, never reads as a Get, and carries its payload |
| CanJagServer.Issue | CANJagServer/CANJaguarServer.cpp:324-530 | an urgent send to a full queue waits; otherwise the flag says exactly whether this send failed (NULL or full queue), a failure leaves the queue alone, a success queues the message at the head (urgent) or the tail (normal) and keeps the queue's capacity, and nothing else changes |
| CanJagServer.ClearSendError | CANJagServer/CANJaguarServer.cpp:312-317 | the flag reads false and nothing else changes |
| CanJagServer.SendErrorReflectsLastSend | CANJagServer/CANJaguarServer.cpp:324-530 | after two sends the flag reflects only the second |
| CanJagServer.LaterSuccessClearsError | CANJagServer/CANJaguarServer.cpp:341-376 | a normal send to a full queue sets the flag, and after the worker takes one command the next send succeeds and clears it |
| CanJagServer.Deliver | CANJagServer/CANJaguarServer.cpp:573-877 | handling a command applies the dispatch to the list, appends the Get reply to an existing response queue and nothing for other commands or a NULL queue, logs exactly the group of an UpdateSyncGroup, and retires exactly the disabled driver of a Remove that hits |
| CanJagServer.Step0 | CANJagServer/CANJaguarServer.cpp:553-881 | with a command waiting, the worker removes the head and handles exactly it; with none it changes nothing |
| CanJagServer.Step | CANJagServer/CANJaguarServer.cpp:532-904 | one loop iteration handles at most the head command and then takes one sweep step that is due exactly when the interval has elapsed and checking is on, with the cursor it leaves; the sweep keeps the sync log, retired drivers and queue capacity of the handling; it never touches the flag, semaphore or running state, and does nothing when the command queue is NULL |
| CanJagServer.StepHandlesHead | CANJagServer/CANJaguarServer.cpp:553-902 | an iteration changes device identifiers exactly as handling the head command does |
| CanJagServer.Run | CANJagServer/CANJaguarServer.cpp:550-904 | any number of iterations keeps the identifiers distinct and the semaphore and running state unchanged |
| CanJagServer.ValidateReply | CANJagServer/CANJaguarServer.cpp:458-494 | the reading is returned only for a non-NULL reply with a payload, the Get code and the requested identifier; a NULL reply, NULL payload, wrong code or wrong identifier gives 0 |
| CanJagServer.GetJagRequest | CANJagServer/CANJaguarServer.cpp:432-447 | a held semaphore blocks; with the semaphore free, a NULL queue returns 0 with the flag set and the semaphore given back, a full queue blocks with the semaphore taken, and a queue with room takes the semaphore and queues the Get at the head, keeping the queue's capacity |
| CanJagServer.GetJagSend | CANJagServer/CANJaguarServer.cpp:443-447 | with the semaphore held, the send blocks exactly while the queue is full, queues the Get at the head once there is room (capacity kept, nothing else changed), and gives the semaphore back on a NULL queue |
| CanJagServer.BlockedGetHoldsStop | CANJagServer/CANJaguarServer.cpp:192-197 | a Get blocked on a full queue holds the semaphore, so Stop waits; after one worker iteration the retried send queues the Get |
| CanJagServer.GetJagComplete | CANJagServer/CANJaguarServer.cpp:449-456 | the caller waits, in the state it was in, exactly while the response queue is empty, and on return the semaphore is released |
| CanJagServer.GetJagRequestAsWritten | CANJagServer/CANJaguarServer.cpp:436-447 | with a command queue the written request is the corrected one |
| CanJagServer.GetJagCompleteAsWritten | CANJagServer/CANJaguarServer.cpp:449-456 | with a response queue the written completion is the corrected one |
| CanJagServer.StepAnswersGet | CANJagServer/CANJaguarServer.cpp:777-828 | the worker answers a Get at the head of the queue with exactly one reply |
| CanJagServer.GetReplyValidates | CANJagServer/CANJaguarServer.cpp:458-494 | the worker's reply passes the caller's check and yields the first match's reading, or 0 on a miss |
| CanJagServer.GetJagRoundTrip | CANJagServer/CANJaguarServer.cpp:432-496 | request, one worker iteration and completion return the first matching device's reading, or 0, ahead of every pending command, and leave the semaphore free, the response queue empty and the command queue as it was |
| CanJagServer.CompleteTakesReply | CANJagServer/CANJaguarServer.cpp:449-494 | with one reply waiting the caller consumes it, releases the semaphore and returns the checked value |
| CanJagServer.SecondGetWaits | CANJagServer/CANJaguarServer.cpp:435-436 | while one Get waits for its reply a second Get blocks |
| CanJagServer.Stop | CANJagServer/CANJaguarServer.cpp:192-297 | stop waits while a Get holds the semaphore; otherwise it drains exactly the queued messages in order, frees a payload for each Set, Add and Config, and leaves queues and semaphore NULL and the server not running, with its devices, brown-out setting, cursor and records kept |
| CanJagServer.DrainQueue | CANJagServer/CANJaguarServer.cpp:203-283 | the drain loop releases exactly the queued messages in received order and frees exactly the payloads they own |
| CanJagServer.GateLeakBlocksStop | CANJagServer/CANJaguarServer.cpp:436-447 | after a written start without a response queue, a written Get returns 0 with the semaphore still held, so a later Get or Stop from another task waits forever; the corrected Get lets Stop proceed |
| Facade.Forward | CANJagServer/AsynchCANJaguar.cpp:8-72 | each facade operation makes one request for the facade's own identifier, only Get reads, Set and PIDWrite forward their speed with group 0, and the static sync update names no device |
| Facade.ForwardMatchesKind | CANJagServer/AsynchCANJaguar.cpp:8-58 | constructor, destructor, Enable, Disable and Configure reach Add, Remove, Enable, Disable and Config for the own identifier, and every queued command decodes back to its call |
| Facade.SetDiscardsSyncGroup | CANJagServer/AsynchCANJaguar.cpp:39-44 | Set forwards the speed but not the sync group: any two groups give the same request, with group 0 |
| Facade.PIDWriteIsSet | CANJagServer/AsynchCANJaguar.cpp:60-65 | PIDWrite(s) makes the same request as Set(s) |
| Facade.ConstructRegistersDevice | CANJagServer/AsynchCANJaguar.cpp:8-16 | constructing a facade for a new identifier, followed by one worker iteration, appends exactly that identifier to the device list |
| Facade.DestroyUnregistersDevice | CANJagServer/AsynchCANJaguar.cpp:18-23 | destroying a facade, followed by one worker iteration, leaves its identifier unregistered |

## Left out

- Real concurrency is left out: tasks, the blocking and timeouts of `msgQSend`, `msgQReceive` and `semTake`, and tick counts. A wait-forever call is `Blocked` in the state it waits in, and a timed-out normal send fails.
- `SetParseMessageTimeout`, `SetCommandMessageTimeout`, `SetJagCheckInterval` and `SetCANBusUpdateInterval` only store tick counts or floating-point intervals. Their effect on timing is the `elapsed` input of `Step`.
- CAN rate limiting (CANJaguarServer.cpp lines 557-571) is left out. It is floating-point timestamp arithmetic plus `Wait`, and it changes nothing in the state.
- Memory ownership (`new` and `delete`) appears only as counts: message frees per command, and payload frees in `Stop`. Two leaks are not modelled:
  - a message whose send failed is never freed;
  - replies left in the response queue at `Stop` are never freed.
- On a Get hit, the written Get case sends a reply through a `SendMessage` pointer that was never allocated (line 816). This is not modelled separately: the written Get of a nonzero identifier is already `Undefined`.
- `Stop`'s drain loop runs once more after the last successful receive and inspects `Message` without assigning it (lines 206-215). The model drains exactly the queued messages.
- `Stop` and `GetJag` on a server that was never started are not modelled separately: their handles are uninitialised in the source. A never-started server has NULL handles here.
- The server destructor (`Stop`, then deleting the task and list), the undefined `IsRunning`, and the task bookkeeping are left out.
- `CanJagServer.GateLeakBlocksStop`: the semaphore is a boolean with no owner. The source's `semMCreate` mutex lets the task that holds it take it again, so only other tasks are blocked by the leak.
- The response queue is unbounded here; the source creates it with 10 slots. The worker sends each reply urgent, to the head of that queue, while the model appends it; at most one Get waits at a time, behind the semaphore, so at most one reply is outstanding and the two orders cannot be told apart.
- Floating point is left out: the facade narrows speeds to `float`, and the server stores `double`. Both are `real` here.
- `Vectors.ExpandFor`: sizes are unbounded integers. The source's `Size * 2` and `postlength + Size` are `uint32_t` and would wrap only for buffers of more than 2^31 elements.
- `Vectors.Pop`: requires a non-empty vector. The source does not check, and popping an empty vector decrements an unsigned zero.
- `Vectors.Peek`: requires a non-empty vector, for the same reason.
- Allocation failure in the `Vector` constructor and in `expandFor` (a thrown string) is left out.
- `Vector::FillTo` is not one of the operations the server uses, and is left out.
- `CANJaguar::UpdateSyncGroup` and the CAN traffic behind every driver call are recorded, not simulated. A controller's reading is the last value set on it.

## Findings

| source | as written | input that shows it | evidently intended | confidence | as-written member | corrected member |
|---|---|---|---|---|---|---|
| CANJagServer/CANJaguarServer.cpp:801-823 | the Get scan sends a reply only for a matching device | once the worker receives a real `GetCANJagMessage` (the :441 defect below fixed), a Get naming unregistered device 7: no reply, and the caller blocked on the response queue waits forever; as written, Get(7) is already undefined at :441 | exactly one reply, the placeholder on a miss | not executed | Dispatch.GetMissSendsNoReply (over Registry.GetRepliesAsWritten) | Registry.GetReply |
| CANJagServer/CANJaguarServer.cpp:441 and :779 | `GetJag` stores the identifier in `Data`, the worker reads `Data` as a `GetCANJagMessage*` | Get(5) dereferences address 5; Get(0) reads as NULL and gets the placeholder even when device 0 exists | the worker receives the identifier | not executed | Dispatch.GetOfDeviceZero (over Dispatch.DispatchAsWritten) | Dispatch.Handle |
| CANJagServer/CANJaguarServer.cpp:758 | Config compares with `SJMessage->ID`, the Set case's variable, whose assignment this pass jumped over: an undefined read | Config for registered device 4: undefined behaviour; if the stale pointer names no device, nothing is configured | compare with `CJMessage->ID` | not executed | Dispatch.ConfigMatchesStaleId (over Dispatch.DispatchAsWritten and Dispatch.ConfigWithStaleId) | Dispatch.Handle |
| CANJagServer/CANJaguarServer.cpp:648-653 and :685-690 | a NULL Set or Add payload `return`s from `RunLoop`, while a NULL Config payload only `break`s | a Set with a NULL payload: the worker stops for good | discard the message and keep looping | not executed | Dispatch.NullPayloadStopsWorker (over Dispatch.DispatchAsWritten) | Dispatch.Handle |
| CANJagServer/CANJaguarServer.cpp:850 and :857 | a Remove that finds its device deletes `Message` inside the loop and again after it | Remove(2) with device 2 registered: two frees of one message | one free | not executed | Dispatch.RemoveFreesMessageTwice (over Dispatch.DispatchAsWritten) | Dispatch.Handle |
| CANJagServer/CANJaguarServer.cpp:446-453 | `GetJag` returns on a send or receive error without giving the semaphore back | `GetJag` on a server whose command queue is NULL: returns 0, then every later `GetJag` or `Stop` from another task waits forever | give the semaphore back before returning | not executed | CanJagServer.GateLeakBlocksStop (over CanJagServer.GetJagRequestAsWritten) | CanJagServer.GetJagRequest |
| CANJagServer/CANJaguarServer.cpp:138-144 | when the response queue cannot be created, `Start` deletes the command queue but goes on and returns true | `msgQCreate` fails for the response queue only: `Start` reports success with both queues NULL | return false | not executed | CanJagServer.StartReportsSuccessWithoutQueues (over CanJagServer.StartAsWritten) | CanJagServer.Start |
| Util/Vector.h:94 | `start + length > Length` is computed in `uint32_t` and can wrap, skipping the clamp | items [10, 20], `Remove(1, 0xFFFFFFFF)`: the result is [10, 10, 10] | clamp the length to `Length - start` | not executed | Vectors.RemoveWrapCounterexample (over Vectors.RemoveAsWritten) | Vectors.Remove |
