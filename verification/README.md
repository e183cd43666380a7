# Deskflow HID firmware: model and proofs

The firmware connects to a Barrier/Deskflow server over TLS, parses the framed packets it receives, and turns them
into USB keyboard and absolute-mouse reports. This project models its core in Dafny and proves what the parts promise
each other.

| module | what it models |
|---|---|
| HidScaling, Commands, Keycodes | pixel-to-HID scaling and clamping; the command vocabulary; modifier masks |
| HidInterpreter, HidRuns, HostKeyboard, HostMouse | the HID task's command interpreter as a class over a six-slot key array, and what keyboard and mouse show over every run of commands |
| TwoTask | network task and HID task as one transition system with a program counter each; every shared access is a step |
| TwoTaskProgress, TwoTaskRequests, TwoTaskOrder, TwoTaskCalls | the same system comes to rest once the network task is idle and USB cooperates; whose position then is at the host; in which order calls are carried out; what one undisturbed call does |
| AtomicCommands | the two models of the HID task agree in both directions on what a command does when no network step comes in between |
| QueueDedup | duplicate rejection and the bounded queue in front of the HID task |
| WireBytes, BarrierPacket | big-endian fields; the packet codec, parsing and in-place serialisation |
| PacketReader | framed reads from a stream delivered in arbitrary chunks with timeouts |
| TlsClient, Reconnect | the write loop with partial writes; backoff with 32-bit wrap-around |
| BarrierClient, ClientRuns, ClientSteps | the client task's nested loops, the state machine they implement, what every run looks like from outside, and what its single moments do |
| WireToActuator, WireMeanings, WireToHost, KeysToHost | the paths from bytes to actuator calls, what the bytes of a frame stand for, and on to the pointer and the keyboard of the host |
| LogRing | the log ring buffer against a FIFO with frames |
| Text, ConfigFile, WebSettings, SettingsTexts, PostedFields | decimal text; the settings file (fprintf/fscanf); the settings web API (snprintf/strstr); both texts written out; what a posted text does to each field |

How the pieces fit: code that changes state is a class or a method proved equal to a specification function
(`HidTask.Handle` to `Exec`, `BarrierClient.Task` to `Run`, `LogRing.Push` to `Pushed`, `ReadPacketInto` to
`ReadPacket`, `PacketSerialize` to `Written`). The lemmas then prove the promised properties of those functions over all
inputs and all runs.

## Environment assumptions

- Memory is sequentially consistent.
- The weak compare-and-swaps at main/tusb/tusb_actuator.c:308 and 346 do not fail spuriously. `Strong` states this for
  an event; `TwoTask.SpuriousProducerLosesMovement` and `TwoTask.SpuriousConsumerSleepsOnWork` show that both are needed.
- The client task is the only task that calls the actuator's queueing functions.
- A report sent by `send_kb_report`, or by `send_abs_mouse_retry` with changed buttons, is accepted eventually.
- The clock does not run backwards. Clock readings, random numbers, USB answers, network events, read and write sizes
  and queue waits are inputs over which every theorem quantifies.

## Where code and documentation disagree

The model follows the code.

- main/tusb/keycodes.c:183-186 says that AltGr is sent as Right Ctrl; line 192 sends Right Alt.
- README.md:131 gives 24601 as the default port; main/config/config.c:12 uses 24800.
- main/tusb/tusb_actuator.c:301-303 describes a flag of three values; the code uses only 0 and 1.
- main/barrier/barrier_packet.c:243 counts 12 bytes for CINN; the four fields named there take 10, and 10 are written.
- main/network/reconnect.c:45-46 promises a capped exponential; from the 29th retry the product wraps to 0.
- main/barrier/barrier_client.c:321 and 361 call a read timeout non-fatal; bytes already taken from the stream are lost.

## Properties that hold only under a condition

Each is proved with its exact condition; where it may surprise, a concrete input shows the failure.

- Duplicate rejection leaves tracked keys and buttons alone exactly if each rejected event is harmless to them
  (`QueueDedup.FilterLosesNothingIff`; a LEAVE between two equal key-downs is a case where it is not,
  `QueueDedup.LeaveDefeatsFilter`), and the host's keyboard exactly if each rejected key event would have repeated the
  report shown (`QueueDedup.HostSeesNoDifferenceIff`, `QueueDedup.EnterDefeatsFilter`). A rejected wheel event loses its
  scroll (`QueueDedup.WheelRejectedIff`). It keeps a superset of the pressed keys exactly as long as no key-down is taken
  by the unfiltered tracker alone (`QueueDedup.FilterKeepsSupersetIff`, `QueueDedup.OverflowBreaksSuperset`).
- A timed-out read leaves the stream where it was exactly if the limit expires before the first byte
  (`PacketReader.TimeoutKeepsStreamIff`).
- A refused movement report is not repeated, so the pointer may stay behind (`TwoTask.RefusedReportIsNotRetried`); it
  does exactly if the last attempt failed (`TwoTask.ConvergedIff`, `TwoTask.AttemptDecides`,
  `TwoTask.LastAttemptConverges`).
- The target goes where the requests lead exactly as long as no step of one task undoes or misreads what the other is
  writing (`TwoTaskRequests.LeadFollowsIff`); a jiggle can undo a movement (`TwoTaskRequests.JiggleOverwritesMovement`).
- Positions are carried out in the order of the calls exactly as long as no ENTER is lost and no movement overtakes one
  (`TwoTaskOrder.InCallOrderIff`); an ENTER carried out late undoes the movements since it was queued
  (`TwoTaskRequests.LateEnterOverwritesMovement`).
- The wake-up guarantee survives a spurious failure of the HID task's compare-and-swap exactly if a notification is
  latched or about to be given (`TwoTask.SpuriousBreaksWakeUpIff`).
- The log page shows the log without repetition exactly until a part of the ring is resent (`LogRing.PageShowsLogIff`).
- The tracked keys are the sender's exactly as long as every command is orderly and every dropped one redundant
  (`HidRuns.TracksSenderIff`, `HidRuns.DroppedUpLeavesPhantom`).
- DISCONNECTED sends no release report; the host's keyboard is released exactly if the last keyboard command sent
  neither modifiers nor keys with a usage (`HostKeyboard.DisconnectReleasesIff`,
  `HostKeyboard.DisconnectLeavesKeyPressed`).
- A posted configuration survives saving and loading exactly if neither string is empty
  (`WebSettings.PostedThenLoaded`, `WebSettings.EmptyServerLosesSettings`).
- A CCLP packet's fields are lost by parsing (`BarrierPacket.ParseAfterSerialize`); CINN grows by two bytes when it is
  serialised again (`BarrierPacket.SerializeAfterParse`).
- The default backoff grows with the retries except from the 28th to the 29th (`Reconnect.BackoffGrowsIff`).
- The settings response is complete exactly if it fits 255 characters (`WebSettings.GetIsCompleteIff`).
- The jiggle's detour stays on screen exactly if the screen is at least 2 pixels wide (`HidScaling.JiggleIsNeighbourIff`).
- Scaling is injective exactly for dimensions up to 32768 (`HidScaling.InjectiveIff`).

## Model

| member | source | states |
|---|---|---|
| TwoTask.NoLostWakeUp | main/tusb/tusb_actuator.c:305-361 | In every reachable interleaving, if the HID task is past its flag check or asleep with a movement pending, or asleep with commands queued, then a notification is latched or the network task stands right before giving it; the notifications eaten by the blocking sends are included. |
| TwoTask.SleeperWakes | main/tusb/tusb_actuator.c:355-361 | With work waiting and the network task idle, the sleeping HID task's next step takes it back to the loop top without needing the one-second timeout. |
| TwoTask.RunKeepsInv | main/tusb/tusb_actuator.c:179-187 | Wake-up, queue discipline and position tracking together are an invariant of every run of both tasks and the USB callback. |
| TwoTask.ConvergedIff | main/tusb/tusb_actuator.c:104-128 | Whatever the interleaving, torn coordinate reads included: once the writer is idle and the flag clear, the last sent coordinates are the scaled current target if and only if the last attempt to report was not behind, that is, was not refused with other coordinates than those sent; a movement taken while unmounted and a new screen size count as such attempts. |
| TwoTask.AttemptDecides | main/tusb/tusb_actuator.c:68-128 | From every state: a step that ends an attempt to report leaves the host behind if and only if it refuses new coordinates for good or takes a movement to elsewhere while unmounted; a step that neither ends an attempt nor changes the screen leaves a host behind, or up to date, as it was. |
| TwoTask.FallsBehindIff | main/tusb/tusb_actuator.c:68-128 | A host that is up to date falls behind in a step if and only if the step refuses new coordinates for good, takes a movement to elsewhere while unmounted, or sets a screen size under which the target scales differently. |
| TwoTask.LastAttemptConverges | main/tusb/tusb_actuator.c:104-128 | While the screen stays the same, at every quiescent point the host has the current target if and only if the last attempt of the run did not fail, or there was none and the host was up to date. |
| TwoTask.Converges | main/tusb/tusb_actuator.c:316-352 | With those steps absent the last sent position equals the scaled target at every quiescent point of every interleaving; settings that repeat the current screen size do no harm. |
| TwoTask.SessionsAreSeparated | main/tusb/tusb_actuator.c:280-287 | Whatever can still be dequeued was queued after the latest flush, and DISCONNECTED always finds the queue empty, so its send cannot fail. |
| TwoTask.SpuriousProducerLosesMovement | main/tusb/tusb_actuator.c:305-314 | One spurious failure of the producer's weak compare-and-swap loses a movement for good: a run ending asleep, nothing latched, position not sent. |
| TwoTask.SpuriousBreaksWakeUpIff | main/tusb/tusb_actuator.c:345-361 | A step of the HID task breaks the wake-up guarantee if and only if its compare-and-swap fails spuriously on a raised flag with no notification latched and none about to be given. |
| TwoTask.SpuriousConsumerSleepsOnWork | main/tusb/tusb_actuator.c:345-360 | Two spurious failures in the HID task put it to sleep with the flag set and no notification latched. |
| TwoTask.RefusedReportIsNotRetried | main/tusb/tusb_actuator.c:122-127 | One refused movement report leaves the host with an old position and nothing pending. |
| TwoTaskProgress.Progress | main/tusb/tusb_actuator.c:343-530 | At every program counter a step with cooperating USB does some of the remaining work, so no wait, blocking send or queue content can hold the HID task forever. |
| TwoTaskProgress.ReachableStatesSettle | main/tusb/tusb_actuator.c:343-530 | From every reachable state with the network task idle, a bounded number of cooperative steps leads to a sleeping HID task, an empty queue and a clear flag, with the current position at the host if and only if the last attempt was not behind. |
| TwoTaskProgress.PendingTargetArrives | main/tusb/tusb_actuator.c:343-352 | With the flag up, or the last attempt not behind, the host gets whatever the target holds when the HID task comes to rest, however much was refused before, as long as no queued command changes the screen size. |
| TwoTaskRequests.LeadFollowsIff | main/tusb/tusb_actuator.c:305-330 | In every interleaving on the same screen, overlapping ENTERs and JIGGLEs included: after every event the target is going where the movement calls and executed ENTERs so far lead, carried out one after the other, if and only if each write of the network task survives what the HID task has yet to write, each read sees what the HID task will leave, and each ENTER begins where the call under way will not move it. |
| TwoTaskRequests.RequestedPositionShownIff | main/tusb/tusb_actuator.c:305-330 | Under that guard, at every quiescent point the host shows the requested position if and only if the last attempt was not behind. |
| TwoTaskRequests.SeparateRequestsShownIff | main/tusb/tusb_actuator.c:305-330 | In particular when no ENTER or JIGGLE overlaps a movement call. |
| TwoTaskRequests.CompleteMovement | main/tusb/tusb_actuator.c:305-330 | What one complete, undisturbed call leaves in the target: the absolute position asked for, or the old one moved by exactly dx to the right and dy downwards, stopped at the edge of the screen in that direction. |
| TwoTaskRequests.RequestedPositionArrives | main/tusb/tusb_actuator.c:343-361 | After a run whose steps met the guard a pending movement is brought to the requested position in a bounded number of cooperative steps. |
| TwoTaskRequests.JiggleOverwritesMovement | main/tusb/tusb_actuator.c:495-510 | A jiggle that has read the target before a complete movement call writes it puts the old value back: every report accepted, nothing pending, the movement lost. |
| TwoTaskRequests.LateEnterOverwritesMovement | main/tusb/tusb_actuator.c:465-470 | An ENTER queued first but carried out after a later movement call moves the pointer back to its entry point. |
| TwoTaskOrder.FirstInFirstOutIff | main/tusb/tusb_actuator.c:179-187 | In every interleaving commands are taken in the order sent, none twice and none missing, after every event if and only if no flush or dump meets a non-empty queue. |
| TwoTaskOrder.CalledAreCarriedOut | main/tusb/tusb_actuator.c:179-363 | Between two points with no command under way, if nothing is dropped or given up, the HID task carries out exactly the commands called for, once each and in order. |
| TwoTaskOrder.InCallOrderIff | main/tusb/tusb_actuator.c:256-330 | In every interleaving positions, those of ENTERs included, are carried out in the order of the calls after every event if and only if no ENTER is flushed, dumped, given up or dropped while unmounted, and no movement call overtakes a waiting ENTER to another position. |
| TwoTaskCalls.CommandIsQueued | main/tusb/tusb_actuator.c:179-187 | A complete queueing call that finds room appends its command to the queue, notifies the HID task and changes nothing else. |
| TwoTaskCalls.FullQueueIsDumped | main/tusb/tusb_actuator.c:152-187 | If the queue stays full until the sender gives up, the call ends with the queue empty, its own command not in it, and no notification. |
| TwoTaskCalls.DisconnectedIsQueuedAlone | main/tusb/tusb_actuator.c:280-287 | A complete DISCONNECTED call, whatever was queued, leaves exactly DISCONNECTED in the queue and notifies. |
| TwoTaskCalls.MovementIsAnnounced | main/tusb/tusb_actuator.c:305-314 | At the end of a movement call the flag goes up with a notification, or was up and nothing happens. |
| TwoTaskCalls.IdleWaitEndsIff | main/tusb/tusb_actuator.c:353-361 | The idle wait ends exactly with a notification, which it uses up, or after its second. |
| TwoTaskCalls.TimeoutTakesUpMovement | main/tusb/tusb_actuator.c:343-361 | Even if its wake-up was lost, a pending movement is taken up once the second has passed. |
| TwoTaskCalls.EnterIsCarriedOut | main/tusb/tusb_actuator.c:465-479 | An ENTER with accepted reports brings target and host to the entry point, and a keyboard report follows exactly if there are modifiers. |
| TwoTaskCalls.CommandsBeginWith | main/tusb/tusb_actuator.c:363-493 | Keys and LEAVE begin with a keyboard report; buttons and wheel go to the mouse report. |
| TwoTaskOrder.CalledPositionShownIff | main/tusb/tusb_actuator.c:256-330 | With both guards met and no ENTER waiting at either end, at every quiescent point the host shows the position the calls lead to if and only if the last attempt was not behind. |
| WireToHost.WireDeterminesPosition | main/barrier/barrier_client.c:215-271 | From bytes to the host: for an undisturbed stretch of session over valid frames, however chunked, and every interleaving of the tasks on the same screen in which the steps meet both guards: at every quiescent point the host shows the position that the frames up to the first goodbye or parse error lead to, cursor enters included, if and only if the last attempt was not behind. |
| AtomicCommands.StepsRefineInterpreter | main/tusb/tusb_actuator.c:363-530 | For every command and every USB answer there is a run of the step machine, without network steps, from the dequeued command back to the loop top that ends in the interpreter's pointer state and leaves flag, queue and network task alone. |
| AtomicCommands.InterpreterCoversSteps | main/tusb/tusb_actuator.c:363-530 | Conversely, every run without network steps that carries out a dequeued command, with any refusals, completions and timeouts, ends in the pointer state the interpreter computes for some USB answers. |
| AtomicCommands.RefusedSteps | main/tusb/tusb_actuator.c:62-64 | However often a blocking report is refused, refusal, completion callback and wake-up bring the task back to the same attempt, having changed nothing but the notification. |
| HidInterpreter.HidTask.constructor | main/tusb/tusb_actuator.h:44-77 | The boot state: no tracked key, zero target and report memory. |
| HidInterpreter.HidTask.Handle | main/tusb/tusb_actuator.c:363-530 | One dequeued command takes the class's fields, its key array and the reports accepted by the host to exactly the specified next state, and keeps the array invariant (prefix distinct, zeros behind, at most six). |
| HidInterpreter.HidTask.TrackKeyDown | main/tusb/tusb_actuator.c:371-380 | The array search and append refine the sequence operation for every array content. |
| HidInterpreter.HidTask.TrackKeyUp | main/tusb/tusb_actuator.c:405-418 | The swap-removal loop refines the sequence operation; an unmatched key-up clears the array. |
| HidInterpreter.HidTask.BuildReport | main/tusb/tusb_actuator.c:382-395 | The six-slot loop produces the specified report bytes, modifier usages merged into the first byte. |
| HidRuns.DownRefinesSet | main/tusb/tusb_actuator.c:371-380 | Key-down is set insertion, except that a seventh key is ignored; distinctness and the bound are kept. |
| HidRuns.UpRefinesSet | main/tusb/tusb_actuator.c:405-418 | Key-up is set removal of a tracked key and clears the set otherwise; distinctness and the bound are kept. |
| HidRuns.ExactStepIff | main/tusb/tusb_actuator.c:366-418 | With respect to the executed commands a step keeps the tracker exact if and only if it is orderly: no seventh key is pressed and none released that is not held while others are. |
| HidRuns.SenderStepIff | main/tusb/tusb_actuator.c:363-418 | With respect to the keys the sender holds, commands dropped while unmounted included, a step keeps the tracker exact if and only if, when handled, it is orderly, and, when dropped, it presses a held key, releases one not held, or resets an empty set. |
| HidRuns.TracksSenderIff | main/tusb/tusb_actuator.c:363-418 | Over every run the tracker follows the sender after every command if and only if that guard holds at every command. |
| HidRuns.NoPhantomKeys | main/tusb/tusb_actuator.c:366-418 | Over every command sequence, USB outages included, the tracked set stays a subset of the keys that the executed commands downed and did not up again since the last LEAVE or DISCONNECTED. |
| HidRuns.OrderlyRunIsExact | main/tusb/tusb_actuator.c:366-418 | Over an orderly run the tracked set equals that set. |
| HidRuns.DroppedUpLeavesPhantom | main/tusb/tusb_actuator.c:363 | A key-up dequeued while unmounted leaves its key tracked. |
| HidRuns.KeyReportShowsTrackedKeys | main/tusb/tusb_actuator.c:382-433 | After each key command the one report the host accepts carries exactly the mask's modifiers and the bits of tracked modifier keys, and exactly the usages of the tracked non-modifier keys; no slot holds 0xE0 to 0xE7 (section 8.3 and Appendix B.1 of HID 1.11). |
| Keycodes.ModifierBits | main/tusb/keycodes.c:179-197 | Each bit of the modifier byte is set exactly for its logical modifiers; Meta and AltGr share Right Alt, right-hand Ctrl, Shift and GUI are never set. |
| HidRuns.EnterReachesHost | main/tusb/tusb_actuator.c:465-479 | After an ENTER whose mouse report is not refused the host's pointer stands at the scaled entry point; with modifiers held its last keyboard report shows exactly those and no key, though keys stay tracked. |
| HidRuns.JiggleRestoresTarget | main/tusb/tusb_actuator.c:495-510 | A jiggle ends with the target and buttons it started with, and if its second report is not refused the host is there. |
| HidScaling.JiggleIsNeighbourIff | main/tusb/tusb_actuator.c:500-501 | From a pixel on screen the detour goes to a neighbouring pixel on screen, if and only if the width is at least 2. |
| HostMouse.JiggleMovesHost | main/tusb/tusb_actuator.c:495-510 | With its reports accepted a jiggle takes the host to the neighbouring pixel and then to the target. |
| HidRuns.LeaveReleases | main/tusb/tusb_actuator.c:481-493 | After LEAVE the host's last keyboard report is all zero and keys, buttons and wheel are clear. |
| HostMouse.LeaveReleasesButtons | main/tusb/tusb_actuator.c:481-493 | After a LEAVE whose mouse report is not refused the host shows no button. |
| HostMouse.EnterReportsNews | main/tusb/tusb_actuator.c:104-128 | With USB accepting, an ENTER without modifiers sends a report exactly if position, buttons or wheel are news to the host. |
| HostMouse.SettingsTakeEffect | main/tusb/tusb_actuator.c:512-529 | Screen size and scaling become the values given, width and height in this order; CONNECTED changes nothing. |
| HostKeyboard.RunShows | main/tusb/tusb_actuator.c:366-486 | Over every run, refusals and outages included, the host's last keyboard report is the one for the mask and tracked keys of the last handled keyboard command, with no keys after LEAVE or an ENTER with modifiers. |
| HostKeyboard.HostShowsLastKeys | main/tusb/tusb_actuator.c:382-433 | At every point of every run from boot the host therefore shows exactly that mask's modifiers and those keys, modifier keys as bits and others in slots. |
| HostKeyboard.ReleasedIff | main/tusb/tusb_actuator.c:382-396 | A keyboard report shows nothing if and only if its mask has no modifier bit and none of its keys has a usage. |
| HostKeyboard.DisconnectReleasesIff | main/tusb/tusb_actuator.c:515-520 | After a run that ends with DISCONNECTED the host's keyboard is released if and only if the last keyboard command sent a mask without modifiers and tracked keys without usages; the tracker is empty in any case. |
| HostKeyboard.DisconnectLeavesKeyPressed | main/tusb/tusb_actuator.c:515-520 | A key held at DISCONNECTED stays in the host's last report. |
| HidRuns.WheelNotDuplicated | main/tusb/tusb_actuator.c:69-128 | Over every run from boot, with any refusals, the delivered wheel magnitude is at most 3 per wheel command and at most one report per wheel command scrolls. |
| HostMouse.ButtonsReachHost | main/tusb/tusb_actuator.c:134-142 | After any run from boot that ends with a completed button command the host's last mouse report shows exactly the buttons pressed and not released since the last LEAVE or DISCONNECTED: left in bit 0, right in bit 1, middle in bit 2 (Appendix B.2 of HID 1.11). |
| Commands.ButtonBits | main/tusb/tusb_actuator.c:134-142 | Pressing button 1, 3 or 2 sets exactly bit 0, 1 or 2 of the button byte, releasing it clears exactly that bit, and any other number leaves all bits alone. |
| HostMouse.WheelReachesHost | main/tusb/tusb_actuator.c:455-463 | A wheel command scrolls the host, in one report, by the value in -3 to 3 nearest to what was asked; refused with unchanged buttons it waits for the next report. |
| QueueDedup.FilterLosesNothingIff | main/tusb/tusb_actuator.c:189-302 | On every stream, resets included, raw and filtered tracked keys and buttons agree after every event if and only if each rejected key-down finds its key tracked or the tracker full, each rejected key-up finds no key tracked, and each rejected button event finds the button as it wants it. |
| QueueDedup.HostSeesNoDifferenceIff | main/tusb/tusb_actuator.c:189-302 | On every stream, keys, buttons and the host's keyboard agree after every event if and only if moreover each rejected key event would have repeated the keyboard report the host shows. |
| QueueDedup.EnterDefeatsFilter | main/tusb/tusb_actuator.c:189-200 | Down, ENTER with Shift, down within 30 ms: keys and buttons agree, but the host ends without the key and with Shift on. |
| QueueDedup.WheelRejectedIff | main/tusb/tusb_actuator.c:246-254 | A wheel event is rejected, and its scroll lost, exactly less than 30 ms after the last one queued, whatever both scroll by. |
| QueueDedup.FilterPreservesPressed | main/tusb/tusb_actuator.c:189-244 | Without LEAVE, DISCONNECTED and rejected key-ups, rejecting repeats leaves tracker slots and buttons identical to those of the raw stream. |
| QueueDedup.BootFilterPreservesPressed | main/tusb/tusb_actuator.c:189-244 | In particular from boot, where the zeroed memory reads as a key-down, unless key 0 is pressed in the first 30 ms. |
| QueueDedup.BootFilterPreservesView | main/tusb/tusb_actuator.c:189-244 | Without ENTERs with modifiers the host's keyboard is the same as well. |
| QueueDedup.FilterKeepsSupersetIff | main/tusb/tusb_actuator.c:189-213 | On every stream, rejected key-ups included, the filtered tracker includes the raw one after every event if and only if no key-down that the filtered tracker does not take, rejected or for lack of room, is taken by the raw one. |
| QueueDedup.BootFilterKeepsSuperset | main/tusb/tusb_actuator.c:189-244 | From boot, without LEAVE and DISCONNECTED, if every kept key-down finds room and key 0 is not pressed in the first 30 ms: at the end the filtered keys include the raw ones and the buttons are equal. |
| QueueDedup.OverflowBreaksSuperset | main/tusb/tusb_actuator.c:371-380 | A stream with a full tracker for which the superset fails. |
| QueueDedup.LeaveDefeatsFilter | main/tusb/tusb_actuator.c:189-200 | Down, LEAVE, down within 30 ms: the raw stream ends with the key pressed, the filtered one without. |
| QueueDedup.FilterIsSubsequence | main/tusb/tusb_actuator.c:189-254 | The queued stream is a subsequence of the submitted one. |
| QueueDedup.RejectedOnlyAsRepeat | main/tusb/tusb_actuator.c:189-213 | Once a key event has been queued, a key event is rejected exactly if it repeats the last queued one, same kind, key and mask, less than 30 ms after it. |
| QueueDedup.ButtonRejectedIff | main/tusb/tusb_actuator.c:224-244 | Once a button event has been queued, a button event is rejected exactly if it repeats the last queued one, same kind and button, less than 30 ms after it. |
| QueueDedup.FirstRejectedIff | main/tusb/tusb_actuator.c:189-302 | From boot, before the first of its kind is queued, the only key, button or wheel events rejected are a press of key 0 without modifiers and scrolls, in the first 30 ms; key repeats are always rejected and no other command ever is. |
| QueueDedup.ApplyIsExec | main/tusb/tusb_actuator.c:366-453 | The keys and buttons on which the filter results are stated are those of the command interpreter. |
| QueueDedup.CommandQueue.Submit | main/tusb/tusb_actuator.c:189-302 | Per call: a rejected event changes nothing and succeeds; a kept one is appended to what is left of the queue, or, if the queue stays full, the call fails and the queue ends empty; the duplicate memory is updated in both cases. |
| QueueDedup.CommandQueue.QueueDisconnected | main/tusb/tusb_actuator.c:280-287 | The queue ends holding exactly DISCONNECTED and the call succeeds, whatever was queued. |
| QueueDedup.CommandQueue.SubmitAll | main/tusb/tusb_actuator.c:189-302 | As long as no call fails, what enters the queue is the filtered stream, for every sequence of calls between two disconnects. |
| HidScaling.NoOverflow | main/tusb/tusb_actuator.c:27-39 | The 32-bit product never overflows, and on-screen pixels land in 0 to 32767. |
| HidScaling.EdgesAreExact | main/tusb/tusb_actuator.c:27-39 | The first and last pixel are sent as exactly 0 and 32767. |
| HidScaling.Monotone | main/tusb/tusb_actuator.c:27-39 | Scaling keeps the order of pixels. |
| HidScaling.InverseByCeiling | main/tusb/tusb_actuator.c:27-39 | For dimensions from 2 to 32768 ceiling division recovers the pixel. |
| HidScaling.InjectiveIff | main/tusb/tusb_actuator.c:27-39 | Distinct pixels have distinct images if and only if the dimension is at most 32768. |
| HidScaling.ClampIsNearest | main/tusb/tusb_actuator.c:41-46 | Clamping yields the nearest value in range. |
| HidScaling.RelativeMoveOnScreenIff | main/tusb/tusb_actuator.c:323-330 | A relative move ends on screen, from any target and for any delta, if and only if the dimension is at least 1. |
| HidScaling.RelativeMoveIs | main/tusb/tusb_actuator.c:323-330 | A relative move adds the delta: the target is their sum while that is on screen, 0 below, and the last pixel beyond. |
| WireBytes.U16RoundTrip | main/barrier/barrier_io.c:11-15 | Writing and reading a 16-bit field are inverse both ways. |
| WireBytes.I16RoundTrip | main/barrier/barrier_io.c:17-20 | The signed reinterpretation and its C cast are inverse both ways. |
| WireBytes.U32RoundTrip | main/barrier/barrier_io.c:3-9 | The four bytes of a 32-bit value reassemble to it. |
| WireBytes.WriteU32 | main/barrier/barrier_io.c:27-33 | In place: exactly the four addressed bytes change, to the value's big-endian bytes. |
| BarrierPacket.CodeIsRecognised | main/barrier/barrier_packet.c:9-67 | Every kind's code is recognised as that kind. |
| BarrierPacket.OnlyCodesAreRecognised | main/barrier/barrier_packet.c:9-67 | Any four bytes recognised as a known kind are that kind's code. |
| BarrierPacket.ParseAfterSerialize | main/barrier/barrier_packet.c:69-370 | Parsing a serialised packet succeeds and gives the packet back, whatever the buffer held before, exactly for every packet except CCLP with non-zero fields. |
| BarrierPacket.SerializeAfterParse | main/barrier/barrier_packet.c:69-370 | Serialising what was parsed reproduces an exact-length frame byte for byte, exactly for every known kind except CINN, which grows by two bytes, and CCLP with non-zero fields. |
| BarrierPacket.ParseIgnoresTail | main/barrier/barrier_packet.c:69-199 | On a frame whose length matches its prefix the parser never depends on bytes behind it. |
| BarrierPacket.ParseSucceedsIff | main/barrier/barrier_packet.c:69-199 | A frame whose length matches its prefix is accepted if and only if it has at least 14, 10, 8, 6, 5, 4 or 1 bytes of data, as its code demands; codes without fields, DSOP and unknown ones are accepted with any data; refusal is an invalid size. |
| BarrierPacket.ParseIgnoresExtra | main/barrier/barrier_packet.c:69-199 | Data beyond what an accepted frame carries, with the length field raised accordingly, changes nothing. |
| BarrierPacket.SerializedWithExtra | main/barrier/barrier_packet.c:69-370 | A serialised packet followed by any data is still parsed as it was. |
| WireMeanings.FieldsAreRead | main/barrier/barrier_packet.c:69-199 | Each field of a parsed packet is the big-endian number, signed where it is a delta or a button, at its place in the frame. |
| BarrierPacket.PacketSerialize | main/barrier/barrier_packet.c:201-370 | A buffer too small is refused untouched; otherwise exactly header and data are overwritten, the reported length is the frame's, and everything behind stays. |
| PacketReader.ReadFull | main/barrier/barrier_client.c:316-337 | The read loop terminates, consumes the stream like the specification, fills exactly its range of the buffer and changes no other byte. |
| PacketReader.ReadPacketInto | main/barrier/barrier_client.c:308-380 | Header read, size checks, payload read and parse together equal the specified reader on the stream. |
| PacketReader.ReadPacketDecides | main/barrier/barrier_client.c:308-380 | For every stream, by the bytes that arrive before reading is interrupted: a complete frame is parsed, a length outside 4 to 1020 is an invalid size, and otherwise the result is a timeout if the limit expired and a failure on a notification, the end or a fault. |
| PacketReader.ReadPacketAtFrame | main/barrier/barrier_client.c:308-380 | At a frame's beginning one call yields the frame's parse and stands at the next frame, or times out having consumed nothing. |
| PacketReader.ChunkingIndependence | main/barrier/barrier_client.c:308-380 | For any list of frames with 4 to 1020 bytes of payload and any split into reads, with the limit expiring only where a frame begins, repeated calls return exactly the parses in order and leave exactly the bytes behind the frames. |
| PacketReader.TimeoutKeepsStreamIff | main/barrier/barrier_client.c:320-324 | A timed-out call leaves the stream as it was if and only if the limit expired before any byte arrived. |
| TlsClient.TlsClient.Write | main/network/tls_client.c:157-202 | For any transport the loop ends, and goes on as long as bytes are left, the connection neither closed nor failed, and no thirty timeouts followed one another; the transport has received exactly a prefix; full delivery, the returned count and the connection state determine each other; on an open connection -1 is returned exactly after thirty timeouts in a row. |
| TlsClient.SendPacket | main/barrier/barrier_client.c:65-79 | Success means only that the write did not stall: the frame is delivered in full if and only if the connection is still up. |
| Reconnect.DefaultBackoff | main/network/reconnect.c:51-58 | With the default parameters the wrapped product gives min(1000*2^n, 60000) up to retry 28 and 0 from retry 29 on. |
| Reconnect.BackoffGrowsIff | main/network/reconnect.c:51-58 | The delay before jitter is non-decreasing from one retry to the next except from the 28th to the 29th. |
| Reconnect.DefaultDelayBound | main/network/reconnect.c:51-65 | The default jitter adds the random number modulo 5000 without wrapping, and no default delay reaches 65 seconds. |
| Reconnect.GeneralBackoff | main/network/reconnect.c:51-58 | For any parameters: the capped exponential while the product fits 32 bits; zero exactly if the cap or the wrapped product is zero. |
| Reconnect.ShiftIsCapped | main/network/reconnect.c:54-58 | From 30 retries on the delay stays the same: the two lowest bits of the base, shifted by 30, within the cap. |
| Reconnect.Reconnect.Delay | main/network/reconnect.c:51-65 | Each delay counts one retry and is the backoff for the count before, plus jitter. |
| BarrierClient.BarrierClient.Task | main/barrier/barrier_client.c:382-521 | The nested loops, with their breaks and continues, follow the flat state machine moment by moment, for every script of the environment. |
| BarrierClient.BarrierClient.Dispatch | main/barrier/barrier_client.c:179-306 | Handling a packet makes the specified actuator calls and replies, updates cursor and activity fields and reports whether the session goes on, for every packet and every answer. |
| ClientRuns.RunIsOrderly | main/barrier/barrier_client.c:382-521 | In every run time stamps ascend; CONNECTED comes only outside a session and DISCONNECTED only inside, settings and waits only outside, packet-caused calls and replies only inside; each idle jiggle comes inside a session whose latest enter or leave is an enter and more than the interval after every earlier activity; each wait is the backoff for the number of waits since the last fresh start; cursor flag, state and retry counter say what the trace says; the task never ends with a session open. |
| ClientRuns.SessionsDoNotOverlap | main/barrier/barrier_client.c:449-501 | Between two CONNECTEDs there is a DISCONNECTED. |
| ClientRuns.IdleJigglesAreSpaced | main/barrier/barrier_client.c:465-475 | Two idle jiggles are more than the configured number of seconds apart. |
| ClientRuns.IdleJigglesComeIff | main/barrier/barrier_client.c:465-475 | At every timed-out read of every run a jiggle is queued, and nothing else happens, if and only if the device is to be kept awake, the latest enter or leave of the session is an enter, and more than the interval has passed since every accepted input, idle jiggle and the start. |
| ClientRuns.LastActivityAdvances | main/barrier/barrier_client.c:215-277 | Between any two points of every run the activity time does not decrease and does not pass the clock. |
| ClientSteps.QueryIsAnswered | main/barrier/barrier_client.c:185-198 | A query for the screen in a session leads to exactly one reply, delivered if the link takes it: the 22 bytes of a DINF with the configured width and height, at the origin. |
| ClientSteps.KeepAliveIsAnswered | main/barrier/barrier_client.c:203-213 | A keep-alive is answered with one keep-alive, the bytes of CALV, after a jiggle exactly if the device is to be kept awake. |
| ClientSteps.SessionEndsIff | main/barrier/barrier_client.c:460-496 | The packet loop ends if and only if the task is stopped, a read fails other than by a timeout, the configuration has changed, the server signs off, a command that must be queued is refused, or a reply cannot be sent. |
| ClientSteps.ReconnectDropsPacket | main/barrier/barrier_client.c:482-489 | The packet that reveals a changed configuration is not handled. |
| ClientSteps.NetworkWaitEndsIff | main/barrier/barrier_client.c:388-404 | The wait for the network ends if and only if there is an address or the task is stopped. |
| ClientSteps.ConfigurationIsApplied | main/barrier/barrier_client.c:406-428 | A changed configuration goes to the actuator as width and height, then scaling, before the TLS client is recreated; if that fails the retries start afresh with one wait. |
| ClientSteps.FailureWaitsIff | main/barrier/barrier_client.c:435-515 | After a failed attempt or a session, which ends with DISCONNECTED, the task waits once with the backoff for its retries and tries again if it may, and otherwise stops. |
| ClientSteps.HandshakeOpensSession | main/barrier/barrier_client.c:449-451 | A successful handshake opens a session with CONNECTED and fresh retries. |
| ClientRuns.UnlimitedClientPersists | main/barrier/barrier_client.c:439-450 | With unlimited retries the task ends only if asked to. |
| ClientRuns.DefaultWaitsAreShort | main/barrier/barrier_client.c:509-515 | In every run with the default parameters each wait is below 65 seconds. |
| ClientRuns.RetriesStayWithinLimit | main/barrier/barrier_client.c:418-446 | With a limit the retry counter stays within it, except for the one unchecked wait after a TLS client could not be created. |
| WireToActuator.SessionCalls | main/barrier/barrier_client.c:460-496 | An undisturbed session makes exactly the calls its packets stand for, in their order, timeouts and idle jiggles in between making no difference. |
| WireToActuator.WireDeterminesCalls | main/barrier/barrier_client.c:308-496 | From bytes to actuator, for a session undisturbed by stop requests, configuration changes, a full queue or a failing link: however a list of valid frames is chunked, with the limit expiring only where a frame begins, the calls are those of the frames before the first that does not parse or says goodbye, in order, and the session stays open if and only if there is none. |
| WireToActuator.LeavingDisconnects | main/barrier/barrier_client.c:498-502 | The next thing the actuator hears after the packet loop is DISCONNECTED. |
| WireMeanings.FrameMeans | main/barrier/barrier_client.c:179-306 | For every frame whose length matches its prefix: the calls made for it are those read off its bytes, independently of the codec, and it ends the session if and only if it is too short for its code or signs off. |
| WireMeanings.BytesDetermineCalls | main/barrier/barrier_client.c:308-496 | From bytes to actuator: an undisturbed session makes exactly the calls the bytes of the frames stand for, however chunked, up to the first frame that is too short or signs off, and stays open if and only if there is none. |
| KeysToHost.KeysReachHost | main/tusb/tusb_actuator.c:189-435 | From boot, for a stream whose rejections are harmless, whose keys are orderly and none of which is hidden by an ENTER or DISCONNECTED: filtered, queued and carried out with any refusals, it leaves exactly the server's keys tracked and the host showing exactly these and the last mask's modifiers. |
| KeysToHost.WireDeterminesKeys | main/barrier/barrier_client.c:229-278 | From bytes to the host's keyboard: under the same conditions on the stream, for an undisturbed stretch of session from boot, however chunked, and every interleaving that drops and gives up nothing with the device mounted, the host shows exactly the keys the frames leave pressed. |
| LogRing.LogRing.Push | main/web/web_server.c:90-105 | Through any wrap-around the ring appends exactly the longest prefix that fits 2047 bytes and drains above 60 percent. |
| LogRing.LogRing.Drain | main/web/web_server.c:54-88 | The frames sent from the ring are the queued bytes, in one part or in two at the physical end, and the tail moves only if the last frame was sent. |
| LogRing.LogRing.Attach | main/web/web_server.c:112-123 | For a new client the queue starts behind all bytes pushed before, with the greeting as its first bytes. |
| LogRing.NothingSkipped | main/web/web_server.c:54-105 | Over any pushes, drains and send failures, the frames sent since a client attached leave no gap: laid out by position they are an exact prefix of the accepted bytes, never behind the confirmed position; each failed second frame costs at most one resent ring of bytes. |
| LogRing.PageShowsLogIff | main/web/log_page.h:33-45 | The log page, which appends every frame, shows exactly the log so far if and only if no second frame has failed, or one has and its first frame has not been resent; otherwise it shows bytes twice. |
| LogRing.DrainSendsQueuedBytes | main/web/web_server.c:67-87 | A drain that confirms has sent exactly the queued bytes in one or two frames; one that does not has sent nothing or the first part and changed no position. |
| LogRing.DrainConfirmsIff | main/web/web_server.c:67-87 | With bytes queued a drain confirms everything if and only if its first send succeeds and, unless the bytes end before the physical end of the ring, its second too; otherwise it confirms nothing. |
| LogRing.PushAccepts | main/web/web_server.c:93-98 | A push accepts all of its data, or as much as fills 2047 bytes. |
| LogRing.PushDrains | main/web/web_server.c:99-104 | A push that leaves at most 1228 bytes queued sends nothing; beyond that, with working sends, everything queued is confirmed. |
| LogRing.SuccessfulDrainReachesAll | main/web/web_server.c:54-105 | After any pushes, drains and failures, one drain whose sends succeed gives the client every accepted byte. |
| Text.ScanPrinted | main/config/config.c:128-138 | Scanning a printed integer gives it back, sign included, and stops at the first character that cannot continue it. |
| Text.ScanWithPlus | main/config/config.c:128-138 | A plus sign before the digits is accepted. |
| ConfigFile.ConfigStore.Save | main/config/config.c:58-101 | On success file and configuration are the new ones; on failure neither changes. |
| ConfigFile.ConfigStore.LoadFile | main/config/config.c:106-154 | The configuration becomes what the ten conversions say, or the defaults. |
| ConfigFile.ScanPrint | main/config/config.c:73-139 | For any layout whose fields read back before the character that follows them, scanning the printed text completes every conversion with the printed values. |
| ConfigFile.ScanReindented | main/config/config.c:128-139 | For any such layout the values are read back as well from a text with any amount of white space, none included, where the format has some. |
| ConfigFile.ReindentedFileLoads | main/config/config.c:128-151 | A settings file re-indented in this way loads the same configuration. |
| SettingsTexts.CompactFileLoads | main/config/config.c:128-151 | In particular one without any white space outside its strings. |
| SettingsTexts.BraceComesFirst | main/config/config.c:119-154 | A text that does not begin with the brace, were it only for white space before it, gives the defaults, which are spelled out. |
| SettingsTexts.LoadedFieldsAre | main/config/config.c:140-151 | From ten conversions numbers are cut down to the width of their fields, the switch is on only for the text true, and strings are taken as they are. |
| SettingsTexts.FileIs | main/config/config.c:73-90 | The file as text, field by field. |
| ConfigFile.FileRoundTripIff | main/config/config.c:73-151 | Loading what was saved completes all ten conversions and restores every field, a negative VLAN id included, exactly if server and device name are non-empty and contain no quote. |
| ConfigFile.LoadedIsQuotable | main/config/config.c:122-151 | Whatever the file holds, ten completed conversions yield a server and a device name that are non-empty and free of quotes. |
| ConfigFile.SavedThenLoaded | main/config/config.c:73-154 | Loading what was saved without quotes gives the same configuration, or the defaults for every field if one of the strings is empty. |
| WebSettings.FindMember | main/web/web_server.c:261-308 | Each searched key first occurs at its own member, although strings and other names come before it. |
| SettingsTexts.WebIs | main/web/web_server.c:214-229 | The web text, field by field. |
| PostedFields.NumbersArePosted | main/web/web_server.c:287-306 | Each of the six numeric settings keeps its value if its key does not occur in a posted text, and otherwise becomes the number behind the first occurrence, cut down to the width of the field. |
| PostedFields.SwitchAndVlanArePosted | main/web/web_server.c:302-312 | The switch keeps its value without its key and otherwise is on exactly for a non-zero number; the VLAN id keeps its value without its key or for an invalid number. |
| PostedFields.StringsArePosted | main/web/web_server.c:261-285 | Server and device name keep their values if key or closing quote is missing or the text is too long for the field, and otherwise become the text up to the next quote. |
| PostedFields.NumbersAreConverted | main/web/web_server.c:287-311 | strtoul and strtol on a printed number: exact within range, the nearest bound beyond it, and the 32-bit complement of a negative number. |
| PostedFields.OtherwiseZero | main/web/web_server.c:287-311 | White space before a number does not matter, and text that is no number reads as zero. |
| WebSettings.WebRoundTripIff | main/web/web_server.c:214-312 | Posting back the rendered text restores the configuration from every prior one, exactly if neither string holds a quote and the VLAN id is valid. |
| WebSettings.GetThenPostIff | main/web/web_server.c:214-312 | With the 256-byte buffer taken into account: GET then POST restores the configuration exactly if moreover strings and digits take at most 109 characters. |
| WebSettings.GetIsCompleteIff | main/web/web_server.c:214-232 | The response is the whole text exactly in that case; strings of at most 75 characters together always fit. |
| WebSettings.LongestStringsDoNotFit | main/web/web_server.c:214-232 | Both strings at their longest do not fit next to a five-digit port and a four-digit screen size. |
| WebSettings.PostedIsSound | main/web/web_server.c:261-312 | Whatever is posted to a stored configuration without quotes, the result fits the buffers, has no quotes and is on a valid VLAN or the prior one. |
| WebSettings.PostedThenLoaded | main/web/web_server.c:256-318 | A posted configuration that is saved comes back at the next load if and only if neither string is empty; otherwise every setting falls back to its default. |
| WebSettings.EmptyServerLosesSettings | main/web/web_server.c:261-272 | Posting an empty server is accepted, and after saving and loading all settings are the defaults. |
| WebSettings.SettingsPost | main/web/web_server.c:256-312 | From a stored configuration without quotes the sequential extraction yields one that fits, has no quotes and a valid or prior VLAN, and that the next load restores exactly if neither string is empty. |

## Left out

- TwoTask: keys and scaling are not part of this state machine, they are in HidInterpreter.
- TwoTaskProgress.ReachableStatesSettle: assumes that the network task rests and USB cooperates meanwhile; fairness of the scheduler and progress under continued traffic are not modelled.
- TwoTask.SleeperWakes: says what the HID task's next step does, not that the scheduler grants it.
- TwoTaskRequests.LeadFollowsIff: for runs on the same screen; a change of its size while a relative movement is under way is not covered.
- KeysToHost.WireDeterminesKeys: the state machine of TwoTask carries no keyboard contents; the commands it carries out are handed to the interpreter, whose keyboard reports do not depend on movements.
- AtomicCommands.StepsRefineInterpreter: compares pointer state and control, not the report list, which the step machine does not keep.
- HidInterpreter.HidTask.Handle: the blocking sends are modelled as accepted; the wait between refusals is in TwoTask.
- QueueDedup.CommandQueue.Submit: the 10 ms wait for room is the number of commands the HID task takes meanwhile; times are natural numbers without 64-bit wrap-around.
- BarrierPacket.Parse: returns the packet instead of filling the caller's structure, so what an error leaves there is not modelled; null arguments are not modelled.
- PacketReader.ReadPacket: the wall-clock comparison appears as an answer of the environment (limit passed or not), so the choice of the limit at main/barrier/barrier_client.c:454-458 is not modelled.
- BarrierClient.BarrierClient.Task: connection and handshake are one yes-or-no answer; the contents of the hello messages are not modelled, and the configuration is read once per moment.
- Reconnect.Reconnect.Delay: the retry counter is unbounded; its overflow after 2^31 delays is not modelled.
- ConfigFile.ConfigStore.Save: write errors after a successful open, and the layout switch that follows.
- WebSettings.SettingsPost: receiving the request and the size limit on it, saving the result and signalling the reconnect.
- WebSettings.GetResponse: for a text that does not fit, what is sent behind the buffer's 255 characters is not modelled.
- LogRing.PageShowsLogIff: the page's limit of 2000 frames, after which it drops the oldest.
- LogRing.LogRing.Push: pushes from several tasks at once; the ring is modelled with one caller at a time.
- Ethernet, DHCP, LED, UART, USB mass storage and TinyUSB descriptors: driver calls without visible semantics.
- TLS internals, certificates, HTTP routing, web pages and the other WebSocket handlers.
- The key tables of main/tusb/keycodes.c:30-138: finite data; `barrier_key_to_hid` is an arbitrary function here.
- Task creation and deletion, allocation failures.
